/** Bounded capture of early-boot output: the longest suffix of lines that fits the budget. */
module EarlyBoot {
  import opened Basics
  import opened Utf8

  const MAX_EARLY_BOOT_CAPTURE_LINES: nat := 2000
  const MAX_EARLY_BOOT_CAPTURE_BYTES: nat := 256 * 1024
  const MAX_EARLY_BOOT_LINE_BYTES: nat := 4096

  const NEWLINE: byte := 10

  // ----- lines -----

  /** Newline-terminated lines of the input, without their newlines. */
  function Complete(s: Bytes): seq<Bytes>
    decreases |s|
  {
    if s == [] then []
    else
      var k := |s| - 1;
      Complete(s[..k]) + if s[k] == NEWLINE then [Rest(s[..k])] else []
  }

  /** What follows the last newline. */
  function Rest(s: Bytes): Bytes
    decreases |s|
  {
    if s == [] then []
    else
      var k := |s| - 1;
      if s[k] == NEWLINE then [] else Rest(s[..k]) + [s[k]]
  }

  function Lines(s: Bytes): seq<Bytes> {
    Complete(s) + if Rest(s) == [] then [] else [Rest(s)]
  }

  function Unlines(lines: seq<Bytes>): Bytes
    decreases |lines|
  {
    if lines == [] then [] else Unlines(lines[..|lines| - 1]) + lines[|lines| - 1] + [NEWLINE]
  }

  lemma UnlinesSnoc(lines: seq<Bytes>, line: Bytes)
    ensures Unlines(lines + [line]) == Unlines(lines) + line + [NEWLINE]
  {
    assert (lines + [line])[..|lines|] == lines;
  }

  /** Splitting loses nothing, and no line contains a newline. */
  lemma {:induction false} SplitIsExact(s: Bytes)
    ensures Unlines(Complete(s)) + Rest(s) == s
    ensures NEWLINE !in Rest(s)
    ensures forall l :: l in Complete(s) ==> NEWLINE !in l
    decreases |s|
  {
    if s != [] {
      var k := |s| - 1;
      SplitIsExact(s[..k]);
      assert s == s[..k] + [s[k]];
      if s[k] == NEWLINE {
        UnlinesSnoc(Complete(s[..k]), Rest(s[..k]));
      } else {
        assert Complete(s) == Complete(s[..k]);
        assert Unlines(Complete(s)) + (Rest(s[..k]) + [s[k]]) == Unlines(Complete(s)) + Rest(s[..k]) + [s[k]];
      }
    }
  }

  function Cut(line: Bytes): Bytes {
    line[..Min(|line|, MAX_EARLY_BOOT_LINE_BYTES)]
  }

  /** The stored text of each line: cut, then decoded. */
  function Texts(lines: seq<Bytes>): seq<Bytes>
    decreases |lines|
  {
    if lines == [] then [] else Texts(lines[..|lines| - 1]) + [Lossy(Cut(lines[|lines| - 1]))]
  }

  /** Every line is stored, as the decoding of its first 4096 bytes. */
  lemma {:induction false} TextsMeaning(lines: seq<Bytes>)
    ensures |Texts(lines)| == |lines|
    ensures forall i :: 0 <= i < |lines| ==>
              Texts(lines)[i] == Lossy(if |lines[i]| <= 4096 then lines[i] else lines[i][..4096])
    decreases |lines|
  {
    if lines != [] {
      TextsMeaning(lines[..|lines| - 1]);
      assert forall line: Bytes :: |line| <= 4096 ==> line[..|line|] == line;
    }
  }

  // ----- the window -----

  function Total(lines: seq<Bytes>): nat
    decreases |lines|
  {
    if lines == [] then 0 else Total(lines[..|lines| - 1]) + |lines[|lines| - 1]|
  }

  predicate Fits(lines: seq<Bytes>) {
    |lines| <= MAX_EARLY_BOOT_CAPTURE_LINES && Total(lines) <= MAX_EARLY_BOOT_CAPTURE_BYTES
  }

  /** Dropping the first `k` lines leaves the longest suffix that fits. */
  ghost predicate LongestFit(all: seq<Bytes>, k: nat) {
    k <= |all| && Fits(all[k..]) && forall j :: 0 <= j < k ==> !Fits(all[j..])
  }

  lemma LongestFitIsUnique(all: seq<Bytes>, a: nat, b: nat)
    requires LongestFit(all, a) && LongestFit(all, b)
    ensures a == b
  {
  }

  lemma {:induction false} TotalSplit(a: seq<Bytes>, b: seq<Bytes>)
    ensures Total(a + b) == Total(a) + Total(b)
    decreases |b|
  {
    if b == [] {
      assert a + b == a;
    } else {
      var k := |b| - 1;
      TotalSplit(a, b[..k]);
      assert (a + b)[..|a + b| - 1] == a + b[..k];
    }
  }

  lemma TotalOfFirst(lines: seq<Bytes>)
    requires lines != []
    ensures Total(lines) == |lines[0]| + Total(lines[1..])
  {
    TotalSplit([lines[0]], lines[1..]);
    assert lines == [lines[0]] + lines[1..];
  }

  /** What did not fit before a new line does not fit with it. */
  lemma GrowsUnfit(all: seq<Bytes>, msg: Bytes, j: nat)
    requires j <= |all| && !Fits(all[j..])
    ensures !Fits((all + [msg])[j..])
  {
    assert (all + [msg])[j..] == all[j..] + [msg];
    TotalSplit(all[j..], [msg]);
  }

  /** With `msg`, the first `k` lines have to go. */
  ghost predicate Forced(all: seq<Bytes>, msg: Bytes, k: nat) {
    k <= |all| && forall j :: 0 <= j < k ==> !Fits((all + [msg])[j..])
  }

  lemma DroppedStayForced(all: seq<Bytes>, msg: Bytes, k: nat)
    requires LongestFit(all, k)
    ensures Forced(all, msg, k)
  {
    forall j | 0 <= j < k
      ensures !Fits((all + [msg])[j..])
    {
      GrowsUnfit(all, msg, j);
    }
  }

  lemma NextIsForced(all: seq<Bytes>, msg: Bytes, k: nat)
    requires k < |all| && Forced(all, msg, k)
    requires |all[k..]| >= MAX_EARLY_BOOT_CAPTURE_LINES || Total(all[k..]) + |msg| > MAX_EARLY_BOOT_CAPTURE_BYTES
    ensures Forced(all, msg, k + 1)
    ensures all[k..][1..] == all[k + 1..] && Total(all[k..]) == |all[k]| + Total(all[k + 1..])
  {
    assert (all + [msg])[k..] == all[k..] + [msg];
    TotalSplit(all[k..], [msg]);
    TotalOfFirst(all[k..]);
    assert all[k..][1..] == all[k + 1..];
  }

  lemma Appended(all: seq<Bytes>, msg: Bytes, k: nat)
    requires Forced(all, msg, k)
    requires |all[k..]| < MAX_EARLY_BOOT_CAPTURE_LINES && Total(all[k..]) + |msg| <= MAX_EARLY_BOOT_CAPTURE_BYTES
    ensures LongestFit(all + [msg], k)
    ensures (all + [msg])[k..] == all[k..] + [msg] && Total((all + [msg])[k..]) == Total(all[k..]) + |msg|
  {
    assert (all + [msg])[k..] == all[k..] + [msg];
    TotalSplit(all[k..], [msg]);
  }

  class CaptureWindow {
    var lines: seq<Bytes>
    var dropped: nat
    var capturedBytes: nat
    ghost var all: seq<Bytes>

    /** The window is the longest fitting suffix of everything pushed; nothing is lost uncounted. */
    ghost predicate Valid()
      reads this
    {
      LongestFit(all, dropped) && lines == all[dropped..] && capturedBytes == Total(lines)
    }

    constructor ()
      ensures Valid() && all == []
    {
      lines, dropped, capturedBytes, all := [], 0, 0, [];
    }

    method PushCapturedLine(raw: Bytes)
      requires Valid() && |raw| <= MAX_EARLY_BOOT_LINE_BYTES
      modifies this
      ensures Valid() && all == old(all) + [Lossy(raw)]
    {
      var msg := Lossy(raw);
      LossyGrowth(raw);
      DroppedStayForced(all, msg, dropped);
      while lines != []
            && (|lines| >= MAX_EARLY_BOOT_CAPTURE_LINES || capturedBytes + |msg| > MAX_EARLY_BOOT_CAPTURE_BYTES)
        invariant all == old(all) && Forced(all, msg, dropped)
        invariant lines == all[dropped..] && capturedBytes == Total(lines)
        decreases |lines|
      {
        NextIsForced(all, msg, dropped);
        capturedBytes := SatSub(capturedBytes, |lines[0]|);
        lines := lines[1..];
        dropped := dropped + 1;
      }
      Appended(all, msg, dropped);
      lines := lines + [msg];
      capturedBytes := capturedBytes + |msg|;
      all := all + [msg];
    }
  }

  // ----- reading -----

  /** One attempt to fill the read buffer; an empty chunk is the end of the stream. */
  datatype Fill = Chunk(bytes: Bytes) | Interrupted | ReadError

  /** The bytes consumed before the stream ends or fails. */
  function Input(fills: seq<Fill>): Bytes {
    if fills == [] then []
    else
      match fills[0]
      case Interrupted => Input(fills[1..])
      case ReadError => []
      case Chunk(bytes) => if bytes == [] then [] else bytes + Input(fills[1..])
  }

  datatype Collected = Collected(lines: seq<Bytes>, dropped: nat)

  /** The reader between two bytes: complete lines are pushed, the current one is cut short. */
  ghost predicate Reading(seen: Bytes, cur: Bytes, overflowed: bool, all: seq<Bytes>) {
    && all == Texts(Complete(seen))
    && cur == Cut(Rest(seen))
    && overflowed == (|Rest(seen)| > MAX_EARLY_BOOT_LINE_BYTES)
  }

  lemma ReadOrdinary(seen: Bytes, cur: Bytes, overflowed: bool, all: seq<Bytes>, b: byte)
    requires Reading(seen, cur, overflowed, all) && b != NEWLINE
    ensures var full := !overflowed && |cur| >= MAX_EARLY_BOOT_LINE_BYTES;
            Reading(seen + [b], if overflowed || full then cur else cur + [b], overflowed || full, all)
  {
    assert (seen + [b])[..|seen|] == seen;
    assert Complete(seen + [b]) == Complete(seen);
    assert Rest(seen + [b]) == Rest(seen) + [b];
  }

  lemma ReadNewline(seen: Bytes, cur: Bytes, overflowed: bool, all: seq<Bytes>)
    requires Reading(seen, cur, overflowed, all)
    ensures Reading(seen + [NEWLINE], [], false, all + [Lossy(cur)])
  {
    assert (seen + [NEWLINE])[..|seen|] == seen;
    assert Complete(seen + [NEWLINE]) == Complete(seen) + [Rest(seen)];
    assert (Complete(seen) + [Rest(seen)])[..|Complete(seen)|] == Complete(seen);
  }

  method ReadChunk(w: CaptureWindow, chunk: Bytes, cur0: Bytes, overflowed0: bool, ghost seen: Bytes)
    returns (cur: Bytes, overflowed: bool)
    requires w.Valid() && Reading(seen, cur0, overflowed0, w.all)
    modifies w
    ensures w.Valid() && Reading(seen + chunk, cur, overflowed, w.all)
  {
    cur, overflowed := cur0, overflowed0;
    assert seen + chunk[..0] == seen;
    for i := 0 to |chunk|
      invariant w.Valid() && Reading(seen + chunk[..i], cur, overflowed, w.all)
    {
      var b := chunk[i];
      ghost var before := seen + chunk[..i];
      assert seen + chunk[..i + 1] == before + [b];
      if b == NEWLINE {
        ReadNewline(before, cur, overflowed, w.all);
        w.PushCapturedLine(cur);
        cur, overflowed := [], false;
      } else {
        ReadOrdinary(before, cur, overflowed, w.all, b);
        if !overflowed {
          if |cur| >= MAX_EARLY_BOOT_LINE_BYTES {
            overflowed := true;
          } else {
            cur := cur + [b];
          }
        }
      }
    }
    assert chunk[..|chunk|] == chunk;
  }

  lemma InputStep(fills: seq<Fill>, i: nat, seen: Bytes)
    requires i < |fills|
    ensures fills[i].Interrupted? ==> seen + Input(fills[i..]) == seen + Input(fills[i + 1..])
    ensures fills[i].ReadError? ==> seen + Input(fills[i..]) == seen
    ensures fills[i].Chunk? && fills[i].bytes == [] ==> seen + Input(fills[i..]) == seen
    ensures fills[i].Chunk? && fills[i].bytes != [] ==>
              seen + Input(fills[i..]) == seen + fills[i].bytes + Input(fills[i + 1..])
  {
    assert fills[i..][1..] == fills[i + 1..];
    if fills[i].Chunk? && fills[i].bytes != [] {
      assert seen + (fills[i].bytes + Input(fills[i + 1..])) == seen + fills[i].bytes + Input(fills[i + 1..]);
    }
  }

  /** The kept lines are the longest suffix of all lines that fits both limits, however the input
      was split into chunks; kept plus dropped is everything. */
  method CollectLines(fills: seq<Fill>) returns (r: Collected)
    ensures var all := Texts(Lines(Input(fills)));
            LongestFit(all, r.dropped) && r.lines == all[r.dropped..] && r.dropped + |r.lines| == |all|
    ensures |r.lines| <= 2000 && Total(r.lines) <= 262144
  {
    var w := new CaptureWindow();
    var cur: Bytes, overflowed := [], false;
    ghost var seen: Bytes := [];
    var i := 0;
    while i < |fills|
      invariant 0 <= i <= |fills|
      invariant fresh(w) && w.Valid() && Reading(seen, cur, overflowed, w.all)
      invariant seen + Input(fills[i..]) == Input(fills)
    {
      InputStep(fills, i, seen);
      match fills[i]
      case Interrupted =>
        i := i + 1;
      case ReadError =>
        break;
      case Chunk(bytes) =>
        if bytes == [] {
          break;
        }
        cur, overflowed := ReadChunk(w, bytes, cur, overflowed, seen);
        seen := seen + bytes;
        i := i + 1;
    }
    assert seen == Input(fills);
    LastLine(seen);
    if cur != [] {
      w.PushCapturedLine(cur);
    }
    assert w.all == Texts(Lines(Input(fills)));
    r := Collected(w.lines, w.dropped);
  }

  /** An unterminated last line counts when it is not empty. */
  lemma LastLine(s: Bytes)
    ensures Texts(Lines(s)) == Texts(Complete(s)) + if Cut(Rest(s)) == [] then [] else [Lossy(Cut(Rest(s)))]
  {
    if Rest(s) == [] {
      assert Lines(s) == Complete(s);
    } else {
      assert Lines(s)[..|Lines(s)| - 1] == Complete(s);
    }
  }

  /** Same bytes, same result: chunk boundaries and interruptions do not matter. */
  lemma ChunksDoNotMatter(a: seq<Fill>, b: seq<Fill>, ra: Collected, rb: Collected)
    requires Input(a) == Input(b)
    requires var all := Texts(Lines(Input(a))); LongestFit(all, ra.dropped) && ra.lines == all[ra.dropped..]
    requires var all := Texts(Lines(Input(b))); LongestFit(all, rb.dropped) && rb.lines == all[rb.dropped..]
    ensures ra == rb
  {
    LongestFitIsUnique(Texts(Lines(Input(a))), ra.dropped, rb.dropped);
  }
}
