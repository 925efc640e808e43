/** Assembling the service list from the main file, the drop-ins and the enabled override. */
module ConfigFiles {
  import opened Basics
  import opened Service

  /** A drop-in in collection order; `content` is `None` when it cannot be read or parsed. */
  datatype Dropin = Dropin(path: string, content: Option<seq<ServiceConfig>>)

  datatype LoadError =
    | BadDropin(path: string)
    | BadMain(path: string)
    | EmptyName
    | DuplicateName(name: string)
    | BadService(name: string)
    | UnknownDependency(name: string, dep: string)

  // ----- merging -----

  /** Replace the service of the same name, or append. */
  function Upsert(services: seq<ServiceConfig>, svc: ServiceConfig): seq<ServiceConfig> {
    if services == [] then [svc]
    else if services[0].name == svc.name then [svc] + services[1..]
    else [services[0]] + Upsert(services[1..], svc)
  }

  function UpsertAll(services: seq<ServiceConfig>, defs: seq<ServiceConfig>): seq<ServiceConfig>
    decreases |defs|
  {
    if defs == [] then services else Upsert(UpsertAll(services, defs[..|defs| - 1]), defs[|defs| - 1])
  }

  /** All definitions of parsable drop-ins, in order. */
  function Definitions(files: seq<Dropin>): seq<ServiceConfig>
    decreases |files|
  {
    if files == [] then []
    else
      var last := files[|files| - 1];
      Definitions(files[..|files| - 1]) + if last.content.Some? then last.content.value else []
  }

  predicate Parsable(files: seq<Dropin>) {
    forall f :: f in files ==> f.content.Some?
  }

  // ----- what merging means: a reference independent of the in-place updates -----

  /** Each name once, in order of first appearance. */
  function FirstAppearances(names: seq<string>): (r: seq<string>)
    ensures Distinct(r)
    ensures forall n :: n in r <==> n in names
    decreases |names|
  {
    if names == [] then []
    else
      var k := |names| - 1;
      var before := FirstAppearances(names[..k]);
      assert names == names[..k] + [names[k]];
      if names[k] in before then before else before + [names[k]]
  }

  /** The last definition of a name. */
  function LastDefinition(defs: seq<ServiceConfig>, n: string): (r: Option<ServiceConfig>)
    ensures r.Some? <==> n in Names(defs)
    ensures r.Some? ==> r.value.name == n && r.value in defs
    decreases |defs|
  {
    if defs == [] then None
    else
      var k := |defs| - 1;
      assert Names(defs) == Names(defs[..k]) + [defs[k].name];
      if defs[k].name == n then Some(defs[k]) else LastDefinition(defs[..k], n)
  }

  /** `merged` lists every name of `defs` once, in order of first appearance, with its last definition. */
  ghost predicate IsMergeOf(merged: seq<ServiceConfig>, defs: seq<ServiceConfig>) {
    && Names(merged) == FirstAppearances(Names(defs))
    && forall i :: 0 <= i < |merged| ==> Some(merged[i]) == LastDefinition(defs, merged[i].name)
  }

  lemma {:induction false} UpsertNew(services: seq<ServiceConfig>, svc: ServiceConfig)
    requires svc.name !in Names(services)
    ensures Upsert(services, svc) == services + [svc]
  {
    if services != [] {
      assert Names(services)[0] == services[0].name;
      assert Names(services[1..]) == Names(services)[1..];
      UpsertNew(services[1..], svc);
      assert services == [services[0]] + services[1..];
    }
  }

  /** The first definition of the same name is the one replaced. */
  lemma {:induction false} UpsertFirst(services: seq<ServiceConfig>, i: nat, svc: ServiceConfig)
    requires i < |services| && services[i].name == svc.name
    requires forall k :: 0 <= k < i ==> services[k].name != svc.name
    ensures Upsert(services, svc) == services[i := svc]
  {
    if i > 0 {
      UpsertFirst(services[1..], i - 1, svc);
      assert services[i := svc] == [services[0]] + services[1..][i - 1 := svc];
    }
  }

  lemma UpsertAt(services: seq<ServiceConfig>, i: nat, svc: ServiceConfig)
    requires i < |services| && services[i].name == svc.name && Distinct(Names(services))
    ensures Upsert(services, svc) == services[i := svc]
    ensures Names(services[i := svc]) == Names(services)
  {
    assert forall k :: 0 <= k < i ==> Names(services)[k] == services[k].name;
    assert Names(services)[i] == svc.name;
    UpsertFirst(services, i, svc);
  }

  lemma LastOfSnoc(defs: seq<ServiceConfig>, svc: ServiceConfig, n: string)
    ensures LastDefinition(defs + [svc], n) == if svc.name == n then Some(svc) else LastDefinition(defs, n)
  {
    assert (defs + [svc])[..|defs|] == defs;
  }

  lemma FirstOfSnoc(defs: seq<ServiceConfig>, svc: ServiceConfig)
    ensures FirstAppearances(Names(defs + [svc])) ==
            var before := FirstAppearances(Names(defs)); if svc.name in before then before else before + [svc.name]
  {
    assert Names(defs + [svc]) == Names(defs) + [svc.name];
    assert Names(defs + [svc])[..|defs|] == Names(defs);
  }

  lemma UpsertMerges(merged: seq<ServiceConfig>, defs: seq<ServiceConfig>, svc: ServiceConfig)
    requires IsMergeOf(merged, defs)
    ensures IsMergeOf(Upsert(merged, svc), defs + [svc])
  {
    FirstOfSnoc(defs, svc);
    var r := Upsert(merged, svc);
    var i := |merged|;
    if svc.name in Names(merged) {
      i :| 0 <= i < |Names(merged)| && Names(merged)[i] == svc.name;
      UpsertAt(merged, i, svc);
    } else {
      UpsertNew(merged, svc);
      assert Names(r) == Names(merged) + [svc.name];
    }
    forall k | 0 <= k < |r|
      ensures Some(r[k]) == LastDefinition(defs + [svc], r[k].name)
    {
      LastOfSnoc(defs, svc, r[k].name);
      assert k != i ==> Names(merged)[k] == merged[k].name == r[k].name != svc.name;
    }
  }

  lemma {:induction false} DistinctIsMerge(base: seq<ServiceConfig>)
    requires Distinct(Names(base))
    ensures IsMergeOf(base, base)
    decreases |base|
  {
    if base != [] {
      var k := |base| - 1;
      assert Names(base[..k]) == Names(base)[..k];
      DistinctIsMerge(base[..k]);
      assert base == base[..k] + [base[k]];
      assert base[k].name !in Names(base[..k]) by {
        assert forall i :: 0 <= i < k ==> Names(base)[i] != Names(base)[k];
      }
      UpsertNew(base[..k], base[k]);
      UpsertMerges(base[..k], base[..k], base[k]);
    }
  }

  /** Merging drop-ins over a base with distinct names: first appearance fixes the position, the
      last definition wins, and no name appears twice. */
  lemma {:induction false} MergeMeaning(base: seq<ServiceConfig>, defs: seq<ServiceConfig>)
    requires Distinct(Names(base))
    ensures IsMergeOf(UpsertAll(base, defs), base + defs)
    ensures Distinct(Names(UpsertAll(base, defs)))
    decreases |defs|
  {
    if defs == [] {
      DistinctIsMerge(base);
      assert base + defs == base;
    } else {
      var k := |defs| - 1;
      MergeMeaning(base, defs[..k]);
      UpsertMerges(UpsertAll(base, defs[..k]), base + defs[..k], defs[k]);
      assert base + defs == base + defs[..k] + [defs[k]];
    }
  }

  lemma {:induction false} UpsertAllAppend(services: seq<ServiceConfig>, defs: seq<ServiceConfig>, more: seq<ServiceConfig>)
    ensures UpsertAll(UpsertAll(services, defs), more) == UpsertAll(services, defs + more)
    decreases |more|
  {
    if more == [] {
      assert defs + more == defs;
    } else {
      var k := |more| - 1;
      UpsertAllAppend(services, defs, more[..k]);
      assert (defs + more)[..|defs + more| - 1] == defs + more[..k];
    }
  }

  /** In-place search and replacement of one definition. */
  method UpsertOne(services: seq<ServiceConfig>, svc: ServiceConfig) returns (r: seq<ServiceConfig>)
    ensures r == Upsert(services, svc)
  {
    var i := 0;
    while i < |services| && services[i].name != svc.name
      invariant 0 <= i <= |services|
      invariant forall k :: 0 <= k < i ==> services[k].name != svc.name
    {
      i := i + 1;
    }
    if i < |services| {
      UpsertFirst(services, i, svc);
      r := services[i := svc];
    } else {
      assert forall k :: 0 <= k < |services| ==> Names(services)[k] == services[k].name;
      UpsertNew(services, svc);
      r := services + [svc];
    }
  }

  /** Merge every drop-in in order; the first unreadable one aborts the load. */
  method MergeServiceDropins(base: seq<ServiceConfig>, files: seq<Dropin>)
    returns (r: Result<seq<ServiceConfig>, LoadError>)
    ensures r.Ok? <==> Parsable(files)
    ensures r.Ok? ==> r.value == UpsertAll(base, Definitions(files))
    ensures r.Ok? && Distinct(Names(base)) ==>
              IsMergeOf(r.value, base + Definitions(files)) && Distinct(Names(r.value))
  {
    var services := base;
    for i := 0 to |files|
      invariant Parsable(files[..i])
      invariant services == UpsertAll(base, Definitions(files[..i]))
    {
      if files[i].content.None? {
        return Err(BadDropin(files[i].path));
      }
      var defs := files[i].content.value;
      ghost var before := services;
      for k := 0 to |defs|
        invariant services == UpsertAll(before, defs[..k])
      {
        assert defs[..k + 1][..k] == defs[..k];
        services := UpsertOne(services, defs[k]);
      }
      assert defs[..|defs|] == defs;
      UpsertAllAppend(base, Definitions(files[..i]), defs);
      assert files[..i + 1][..i] == files[..i];
    }
    assert files[..|files|] == files;
    if Distinct(Names(base)) {
      MergeMeaning(base, Definitions(files));
    }
    r := Ok(services);
  }

  // ----- where a definition came from -----

  datatype Source = Source(path: string, entry: ServiceConfig)

  /** The file and the definition that won the merge. */
  function Origin(base: seq<ServiceConfig>, configPath: string, files: seq<Dropin>, n: string): (r: Option<Source>)
    decreases |files|
  {
    if files == [] then
      var d := LastDefinition(base, n);
      if d.Some? then Some(Source(configPath, d.value)) else None
    else
      var last := files[|files| - 1];
      var d := if last.content.Some? then LastDefinition(last.content.value, n) else None;
      if d.Some? then Some(Source(last.path, d.value)) else Origin(base, configPath, files[..|files| - 1], n)
  }

  /** The lookup: the last drop-in listing the name, else the main file; first entry within it. */
  function Lookup(base: seq<ServiceConfig>, configPath: string, files: seq<Dropin>, n: string): (r: Option<Source>)
    decreases |files|
  {
    if files == [] then
      var d := Find(base, n);
      if d.Some? then Some(Source(configPath, d.value)) else None
    else
      var last := files[|files| - 1];
      var d := if last.content.Some? then Find(last.content.value, n) else None;
      if d.Some? then Some(Source(last.path, d.value)) else Lookup(base, configPath, files[..|files| - 1], n)
  }

  lemma DefinitionsSnoc(base: seq<ServiceConfig>, files: seq<Dropin>)
    requires files != []
    ensures var last := files[|files| - 1];
            base + Definitions(files) == base + Definitions(files[..|files| - 1])
                                         + if last.content.Some? then last.content.value else []
  {
    var last := files[|files| - 1];
    Associate(base, Definitions(files[..|files| - 1]), if last.content.Some? then last.content.value else []);
  }

  /** The merged definition of a name is the one its origin holds. */
  lemma {:induction false} OriginIsLast(base: seq<ServiceConfig>, configPath: string, files: seq<Dropin>, n: string)
    ensures Origin(base, configPath, files, n).Some? <==> LastDefinition(base + Definitions(files), n).Some?
    ensures Origin(base, configPath, files, n).Some? ==>
              Some(Origin(base, configPath, files, n).value.entry) == LastDefinition(base + Definitions(files), n)
    decreases |files|
  {
    if files == [] {
      assert base + Definitions(files) == base;
    } else {
      var k := |files| - 1;
      var defs := if files[k].content.Some? then files[k].content.value else [];
      OriginIsLast(base, configPath, files[..k], n);
      DefinitionsSnoc(base, files);
      LastOfAppend(base + Definitions(files[..k]), defs, n);
    }
  }

  lemma {:induction false} LastOfAppend(defs: seq<ServiceConfig>, more: seq<ServiceConfig>, n: string)
    ensures LastDefinition(defs + more, n) ==
            if LastDefinition(more, n).Some? then LastDefinition(more, n) else LastDefinition(defs, n)
    decreases |more|
  {
    if more == [] {
      assert defs + more == defs;
    } else {
      var k := |more| - 1;
      LastOfAppend(defs, more[..k], n);
      LastOfSnoc(defs + more[..k], more[k], n);
      assert more == more[..k] + [more[k]];
      Associate(defs, more[..k], [more[k]]);
    }
  }

  /** The list, among the files and the base, in which the last definition stands. */
  function OriginList(base: seq<ServiceConfig>, files: seq<Dropin>, n: string): seq<ServiceConfig>
    decreases |files|
  {
    if files == [] then base
    else
      var last := files[|files| - 1];
      if last.content.Some? && n in Names(last.content.value) then last.content.value
      else OriginList(base, files[..|files| - 1], n)
  }

  /** The lookup always names the right file; it shows the effective definition exactly when the
      first and the last entry of that name in that file coincide. */
  lemma {:induction false} LookupNamesOrigin(base: seq<ServiceConfig>, configPath: string, files: seq<Dropin>, n: string)
    ensures var found, origin := Lookup(base, configPath, files, n), Origin(base, configPath, files, n);
            && (found.Some? <==> origin.Some?)
            && (found.Some? ==> found.value.path == origin.value.path)
            && (found == origin <==>
                Find(OriginList(base, files, n), n) == LastDefinition(OriginList(base, files, n), n))
    decreases |files|
  {
    if files != [] {
      LookupNamesOrigin(base, configPath, files[..|files| - 1], n);
    }
  }

  /** No name twice in a list: its first and last entries coincide. */
  lemma {:induction false} DistinctFindIsLast(defs: seq<ServiceConfig>, n: string)
    requires Distinct(Names(defs))
    ensures Find(defs, n) == LastDefinition(defs, n)
    decreases |defs|
  {
    if n in Names(defs) {
      var i :| 0 <= i < |Names(defs)| && Names(defs)[i] == n;
      FindAt(defs, i);
    }
  }

  /** A drop-in that lists a name twice, with different definitions, loads; the merge keeps the second definition,
      and the lookup shows the first. */
  lemma LookupShowsFirst(configPath: string, path: string, first: ServiceConfig, second: ServiceConfig)
    requires first.name == second.name && first != second
    requires second.name != "" && ServiceValid(second) && second.dependsOn == []
    ensures var files := [Dropin(path, Some([first, second]))];
            && Parsable(files) && UpsertAll([], Definitions(files)) == [second] && ConfigValid([second])
            && Origin([], configPath, files, first.name) == Some(Source(path, second))
            && Lookup([], configPath, files, first.name) == Some(Source(path, first))
  {
    var defs := [first, second];
    var files := [Dropin(path, Some(defs))];
    assert files[0] == Dropin(path, Some(defs)) && files[..0] == [];
    assert Definitions(files) == [] + defs && [] + defs == defs;
    assert defs[..1] == [first] && [first][..0] == [];
    assert UpsertAll([], [first]) == Upsert(UpsertAll([], []), first);
    assert Names(defs)[0] == first.name && Names([second])[0] == second.name;
  }

  /** The main file as the lookup finds it: not there, not readable as JSON, or listing services. */
  datatype MainFile = Missing | Unreadable | Listing(services: seq<ServiceConfig>) {
    function Services(): seq<ServiceConfig> {
      if Listing? then services else []
    }
  }

  /** Scan all drop-ins, remember the last hit, and fall back to the main file, which is only read then. */
  method FindServiceSource(main: MainFile, configPath: string, files: seq<Dropin>, n: string)
    returns (r: Result<Option<Source>, LoadError>)
    ensures r.Ok? <==> Parsable(files) && (!main.Unreadable? || Lookup([], configPath, files, n).Some?)
    ensures r.Ok? ==> r.value == Lookup(main.Services(), configPath, files, n)
    ensures r.Err? && Parsable(files) ==> r.error == BadMain(configPath)
    ensures r.Err? && !Parsable(files) ==>
              exists k :: 0 <= k < |files| && files[k].content.None? && Parsable(files[..k]) && r.error == BadDropin(files[k].path)
  {
    var found: Option<Source> := None;
    for i := 0 to |files|
      invariant Parsable(files[..i])
      invariant forall base :: Lookup(base, configPath, files[..i], n) ==
                  if found.Some? then found else Lookup(base, configPath, [], n)
    {
      assert files[..i + 1][..i] == files[..i];
      if files[i].content.None? {
        return Err(BadDropin(files[i].path));
      }
      var entry := Find(files[i].content.value, n);
      if entry.Some? {
        found := Some(Source(files[i].path, entry.value));
      }
    }
    assert files[..|files|] == files;
    if found.Some? {
      return Ok(found);
    }
    if main.Unreadable? {
      return Err(BadMain(configPath));
    }
    var entry := Find(main.Services(), n);
    r := Ok(if entry.Some? then Some(Source(configPath, entry.value)) else None);
  }

  // ----- the enabled override and validation -----

  function Overridden(svc: ServiceConfig, overrides: map<string, bool>): ServiceConfig {
    if svc.name in overrides then svc.(enabled := overrides[svc.name]) else svc
  }

  function ApplyOverrides(services: seq<ServiceConfig>, overrides: map<string, bool>): (r: seq<ServiceConfig>)
    ensures |r| == |services|
    ensures forall i :: 0 <= i < |r| ==> r[i] == Overridden(services[i], overrides)
  {
    seq(|services|, i requires 0 <= i < |services| => Overridden(services[i], overrides))
  }

  method ApplyEnabledOverride(services: seq<ServiceConfig>, overrides: map<string, bool>) returns (r: seq<ServiceConfig>)
    ensures r == ApplyOverrides(services, overrides)
  {
    r := services;
    for i := 0 to |services|
      invariant |r| == |services|
      invariant forall k :: 0 <= k < i ==> r[k] == Overridden(services[k], overrides)
      invariant forall k :: i <= k < |r| ==> r[k] == services[k]
    {
      if r[i].name in overrides {
        r := r[i := r[i].(enabled := overrides[r[i].name])];
      }
    }
  }

  /** The per-service checks of `validate` that concern modelled fields. */
  predicate ServiceValid(svc: ServiceConfig) {
    && (svc.restartPolicy.Always? ==> svc.daemon)
    && svc.CanStart()
    && (svc.livenessProbe.Some? ==>
          svc.livenessProbe.value.interval >= 1 && svc.livenessProbe.value.timeout >= 1
          && svc.livenessProbe.value.failureThreshold >= 1)
  }

  /** Named, distinct, well formed, and closed under dependencies. */
  ghost predicate ConfigValid(services: seq<ServiceConfig>) {
    && "" !in Names(services) && Distinct(Names(services))
    && (forall svc :: svc in services ==> ServiceValid(svc))
    && (forall svc, dep :: svc in services && dep in svc.dependsOn ==> dep in Names(services))
  }

  /** What one service has to satisfy, field by field. */
  ghost predicate Acceptable(services: seq<ServiceConfig>, svc: ServiceConfig) {
    && svc.name != ""
    && (svc.restartPolicy == Always ==> svc.daemon)
    && (svc.startCmd != None || svc.cmd != None)
    && (svc.livenessProbe != None ==>
          && svc.livenessProbe.value.interval > 0 && svc.livenessProbe.value.timeout > 0
          && svc.livenessProbe.value.failureThreshold > 0)
    && (forall dep :: dep in svc.dependsOn ==> exists k :: 0 <= k < |services| && services[k].name == dep)
  }

  lemma AcceptableIff(services: seq<ServiceConfig>, i: nat)
    requires i < |services|
    ensures Acceptable(services, services[i]) <==>
            && services[i].name != "" && ServiceValid(services[i])
            && forall dep :: dep in services[i].dependsOn ==> dep in Names(services)
  {
    assert forall dep :: dep in Names(services) <==> exists k :: 0 <= k < |services| && services[k].name == dep by {
      assert forall k :: 0 <= k < |services| ==> Names(services)[k] == services[k].name;
    }
  }

  /** A configuration is valid exactly when every service is acceptable and no two share a name. */
  lemma ConfigValidIff(services: seq<ServiceConfig>)
    ensures ConfigValid(services) <==>
            && (forall i :: 0 <= i < |services| ==> Acceptable(services, services[i]))
            && (forall i, j :: 0 <= i < j < |services| ==> services[i].name != services[j].name)
  {
    assert forall k :: 0 <= k < |services| ==> Names(services)[k] == services[k].name && services[k] in services;
    forall i | 0 <= i < |services|
      ensures Acceptable(services, services[i]) <==>
              && services[i].name != "" && ServiceValid(services[i])
              && forall dep :: dep in services[i].dependsOn ==> dep in Names(services)
    {
      AcceptableIff(services, i);
    }
    if ConfigValid(services) {
      forall i, j | 0 <= i < j < |services|
        ensures services[i].name != services[j].name
      {
        assert Names(services)[i] != Names(services)[j];
      }
    } else if forall i :: 0 <= i < |services| ==> Acceptable(services, services[i]) {
      assert forall svc :: svc in services ==> exists i :: 0 <= i < |services| && services[i] == svc;
      assert !Distinct(Names(services));
    }
  }

  method Validate(services: seq<ServiceConfig>) returns (r: Result<(), LoadError>)
    ensures r.Ok? <==> ConfigValid(services)
    ensures r.Err? && r.error.DuplicateName? ==>
              exists i, j :: 0 <= i < j < |services| && services[i].name == services[j].name == r.error.name
    ensures r.Err? && r.error.UnknownDependency? ==>
              r.error.dep !in Names(services) && exists svc :: svc in services && svc.name == r.error.name && r.error.dep in svc.dependsOn
    ensures r.Err? && r.error.BadService? ==> exists svc :: svc in services && svc.name == r.error.name && !ServiceValid(svc)
    ensures r.Err? && r.error.EmptyName? ==> "" in Names(services)
    ensures r.Err? ==> r.error.EmptyName? || r.error.DuplicateName? || r.error.BadService? || r.error.UnknownDependency?
  {
    var names: set<string> := {};
    for i := 0 to |services|
      invariant names == set n | n in Names(services)[..i]
      invariant "" !in Names(services)[..i] && Distinct(Names(services)[..i])
      invariant forall svc :: svc in services[..i] ==> ServiceValid(svc)
    {
      var svc := services[i];
      assert Names(services)[i] == svc.name && svc in services;
      if svc.name == "" {
        return Err(EmptyName);
      }
      if svc.name in names {
        assert svc.name in Names(services)[..i];
        var k :| 0 <= k < i && Names(services)[k] == Names(services)[i];
        return Err(DuplicateName(svc.name));
      }
      if !ServiceValid(svc) {
        return Err(BadService(svc.name));
      }
      names := names + {svc.name};
      assert Names(services)[..i + 1] == Names(services)[..i] + [svc.name];
      assert services[..i + 1] == services[..i] + [svc];
    }
    assert Names(services)[..|services|] == Names(services) && services[..|services|] == services;
    for i := 0 to |services|
      invariant forall svc, dep :: svc in services[..i] && dep in svc.dependsOn ==> dep in Names(services)
    {
      var svc := services[i];
      assert svc in services;
      for k := 0 to |svc.dependsOn|
        invariant forall dep :: dep in svc.dependsOn[..k] ==> dep in Names(services)
      {
        if svc.dependsOn[k] !in names {
          assert svc.dependsOn[k] in svc.dependsOn;
          return Err(UnknownDependency(svc.name, svc.dependsOn[k]));
        }
      }
      assert svc.dependsOn[..|svc.dependsOn|] == svc.dependsOn;
      assert services[..i + 1] == services[..i] + [svc];
    }
    r := Ok(());
  }

  /** Merge, override, validate: what a load from disk returns. */
  method LoadWithDropins(base: seq<ServiceConfig>, files: seq<Dropin>, overrides: map<string, bool>)
    returns (r: Result<seq<ServiceConfig>, LoadError>)
    ensures r.Ok? <==> Parsable(files) && ConfigValid(ApplyOverrides(UpsertAll(base, Definitions(files)), overrides))
    ensures r.Ok? ==> r.value == ApplyOverrides(UpsertAll(base, Definitions(files)), overrides) && ConfigValid(r.value)
  {
    var merged := MergeServiceDropins(base, files);
    if merged.Err? {
      return Err(merged.error);
    }
    var services := ApplyEnabledOverride(merged.value, overrides);
    var checked := Validate(services);
    if checked.Err? {
      return Err(checked.error);
    }
    r := Ok(services);
  }
}
