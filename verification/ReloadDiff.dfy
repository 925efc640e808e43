/** What a reload sends, and when it sends nothing. */
module ReloadDiff {
  import opened Basics
  import opened Service
  import opened SupervisorSpec
  import opened SupervisorRuns
  import opened ConfigFiles

  /** Same services in the same order, up to the cached identity that comparison ignores. */
  ghost predicate SameDefinitions(a: seq<ServiceConfig>, b: seq<ServiceConfig>) {
    && |a| == |b|
    && forall i :: 0 <= i < |a| ==> DefinitionEq(a[i], b[i]) && a[i].enabled == b[i].enabled
  }

  /** A kept service whose monitor listens gets no message exactly when its flag is unchanged and its
      definition is unchanged or irrelevant because it is disabled; then its whole record is unchanged too. */
  lemma KeptIsSilentIff(s: Svc, was: ServiceConfig, svc: ServiceConfig, now: nat)
    ensures var alike := was.enabled == svc.enabled && (DefinitionEq(was, svc) || !svc.enabled);
            && (Kept(s, was, svc, now).queue == s.queue <==> s.mon.exited || alike)
            && (alike ==> Kept(s, was, svc, now) == s)
  {
    var q := Kept(s, was, svc, now).queue;
    assert !s.mon.exited && was.enabled != svc.enabled ==> |q| > |s.queue|;
  }

  /** Services with the same definition and flag keep their runtime and get no message. */
  lemma ReloadKeepsUnchanged(w: World, services: seq<ServiceConfig>, n: string)
    requires Named(w) && Distinct(Names(services))
    requires n in Names(w.config) && n in Names(services)
    requires var was, svc := Find(w.config, n).value, Find(services, n).value;
             was.enabled == svc.enabled && (DefinitionEq(was, svc) || !svc.enabled)
    ensures n in w.services && n in Reload(w, services).services
    ensures Reload(w, services).services[n] == w.services[n]
  {
    ReloadAt(w, services);
    var i := Position(services, n);
    FindAt(services, i);
    KeptIsSilentIff(w.services[n], Find(w.config, n).value, services[i], w.now);
  }

  lemma SameNames(a: seq<ServiceConfig>, b: seq<ServiceConfig>)
    requires SameDefinitions(a, b)
    ensures Names(a) == Names(b) && NameSet(a) == NameSet(b)
  {
    assert forall i :: 0 <= i < |a| ==> a[i].name == b[i].name;
  }

  /** A reload that changes nothing sends nothing and touches no service. */
  lemma QuietReload(w: World, services: seq<ServiceConfig>)
    requires Named(w) && SameDefinitions(w.config, services)
    ensures Reload(w, services) == w.(config := services)
  {
    SameNames(w.config, services);
    var w' := Reload(w, services);
    ReloadAt(w, services);
    forall n | n in w.services
      ensures w'.services[n] == w.services[n]
    {
      var i := Position(services, n);
      FindAt(w.config, i);
      KeptIsSilentIff(w.services[n], w.config[i], services[i], w.now);
    }
    assert w'.services == w.services;
  }

  /** Reloading the same configuration a second time changes nothing and sends nothing. */
  lemma ReloadTwice(w: World, services: seq<ServiceConfig>)
    requires Named(w) && Distinct(Names(services))
    ensures Reload(Reload(w, services), services) == Reload(w, services)
  {
    ReloadAt(w, services);
    QuietReload(Reload(w, services), services);
  }

  /** Overriding a flag on disk is the same as flipping it in memory. */
  lemma OverrideFollowsFlag(disk: seq<ServiceConfig>, overrides: map<string, bool>, config: seq<ServiceConfig>,
                            i: nat, enabled: bool)
    requires SameDefinitions(config, ApplyOverrides(disk, overrides))
    requires Distinct(Names(config)) && i < |config|
    ensures SameDefinitions(config[i := config[i].(enabled := enabled)],
                            ApplyOverrides(disk, overrides[config[i].name := enabled]))
  {
    var n := config[i].name;
    var loaded := ApplyOverrides(disk, overrides[n := enabled]);
    forall k | 0 <= k < |config|
      ensures var c := config[i := config[i].(enabled := enabled)][k];
              DefinitionEq(c, loaded[k]) && c.enabled == loaded[k].enabled
    {
      assert DefinitionEq(config[k], ApplyOverrides(disk, overrides)[k]);
      assert disk[k].name == config[k].name;
      assert k != i ==> Names(config)[k] != Names(config)[i];
    }
  }

  lemma ToggleKeepsNamed(w: World, n: string, enabled: bool)
    requires Named(w) && n in w.services
    ensures Named(SetEnabled(w, n, enabled, true).0)
  {
    var w' := SetEnabled(w, n, enabled, true).0;
    var i := Position(w.config, n);
    WithEnabledIs(w.config, i, enabled);
    assert w'.services.Keys == w.services.Keys;
    assert NameSet(w'.config) == NameSet(w.config);
  }

  /** The file watcher fires right after enable or disable: re-reading the disk sends no message. */
  lemma ReloadAfterToggleIsQuiet(w: World, disk: seq<ServiceConfig>, n: string, enabled: bool)
    requires Named(w) && SameDefinitions(w.config, ApplyOverrides(disk, w.overrides))
    requires SetEnabled(w, n, enabled, true).1.Ok?
    ensures var w' := SetEnabled(w, n, enabled, true).0;
            var loaded := ApplyOverrides(disk, w'.overrides);
            && Named(w')
            && SameDefinitions(w'.config, loaded)
            && Reload(w', loaded) == w'.(config := loaded)
  {
    var i := Position(w.config, n);
    WithEnabledIs(w.config, i, enabled);
    OverrideFollowsFlag(disk, w.overrides, w.config, i, enabled);
    ToggleKeepsNamed(w, n, enabled);
    var w' := SetEnabled(w, n, enabled, true).0;
    QuietReload(w', ApplyOverrides(disk, w'.overrides));
  }
}
