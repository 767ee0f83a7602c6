/** The `sys.path` fallback of module-name resolution: entries are scanned in
    the order of `sorted(sys.path, key=len)` (utils) or
    `sorted(sys.path, key=len, reverse=True)` (decorators), and the first
    entry that is a directory prefix of the file and yields non-empty module
    parts names the module. Python's sort is stable, also when reversed, so
    the scan order is "by key, then by position in `sys.path`"; the scan is
    modelled as the selection of the earliest qualifying entry in that
    order. */
module SysPathSearch {
  import opened Wrappers
  import opened Paths

  /** One `sys.path` entry: its text as listed (whose length is the sort
      key) and its `os.path.abspath`, which the caller supplies. */
  datatype Entry = Entry(raw: string, abs: Path)

  /** Scan direction: `sorted(..., key=len)` or `sorted(..., key=len, reverse=True)`. */
  datatype Order = ShortestFirst | LongestFirst

  /** What entry `e` contributes for `file`: the module parts of the file
      relative to the entry, when `file` starts with `entry + os.sep` and
      those parts are non-empty (`if parts:`). An entry whose absolute path
      is the root `/` never matches, because `"/" + os.sep` is `"//"`. */
  function Candidate(e: Entry, file: Path): (r: Option<seq<string>>)
    ensures r.Some? ==> 0 < |e.abs| < |file| && IsPrefix(e.abs, file) && |r.value| > 0
    ensures r.Some? ==> r.value == ModuleParts(file[|e.abs|..])
    ensures 0 < |e.abs| < |file| && IsPrefix(e.abs, file) && |ModuleParts(file[|e.abs|..])| > 0 ==>
              r == Some(ModuleParts(file[|e.abs|..]))
  {
    if 0 < |e.abs| < |file| && file[..|e.abs|] == e.abs then
      var parts := ModuleParts(file[|e.abs|..]);
      if |parts| > 0 then Some(parts) else None
    else None
  }

  /** The component test is the text test of the source: for well-formed
      absolute paths, an entry contributes exactly when the file's text
      starts with the entry's text and a separator and the remaining
      components give non-empty module parts. */
  lemma CandidateIsStartsWith(e: Entry, file: Path)
    requires WellFormed(e.abs) && WellFormed(file)
    ensures Candidate(e, file).Some? <==>
              StartsWith(Text(file), Text(e.abs) + "/") && |e.abs| < |file| && |ModuleParts(file[|e.abs|..])| > 0
  {
    StartsWithIffAncestor(e.abs, file);
  }

  /** The sort key `len(entry)`, negated for a reversed sort. */
  function Key(order: Order, e: Entry): int {
    if order == ShortestFirst then |e.raw| else -|e.raw|
  }

  /** `a` sorts strictly before `b`. */
  predicate KeyBefore(order: Order, a: Entry, b: Entry) {
    Key(order, a) < Key(order, b)
  }

  /** Entry `i` is scanned no later than entry `j` in the stable sorted order. */
  predicate ScannedNoLater(order: Order, entries: seq<Entry>, i: nat, j: nat)
    requires i < |entries| && j < |entries|
  {
    KeyBefore(order, entries[i], entries[j])
    || (!KeyBefore(order, entries[j], entries[i]) && i <= j)
  }

  /** The earliest position, ordered by key and then by position, among
      those whose flag is set: the stable sorted scan over a list. */
  function Earliest(keys: seq<int>, ok: seq<bool>): (r: Option<nat>)
    requires |keys| == |ok|
    ensures r.Some? ==> r.value < |ok| && ok[r.value]
    ensures r.Some? ==> forall j :: 0 <= j < |ok| && ok[j] ==>
                          keys[r.value] < keys[j] || (keys[r.value] == keys[j] && r.value <= j)
    ensures r.None? <==> forall j :: 0 <= j < |ok| ==> !ok[j]
    decreases |ok|
  {
    if |ok| == 0 then None
    else
      var n := |ok| - 1;
      var best := Earliest(keys[..n], ok[..n]);
      if !ok[n] then best
      else if best.Some? && keys[best.value] <= keys[n] then best
      else Some(n)
  }

  /** The index of the entry the scan stops at, if any. */
  function Select(entries: seq<Entry>, file: Path, order: Order): (r: Option<nat>)
    ensures r.Some? ==> r.value < |entries| && Candidate(entries[r.value], file).Some?
    ensures r.Some? ==> forall j :: 0 <= j < |entries| && Candidate(entries[j], file).Some? ==>
                          ScannedNoLater(order, entries, r.value, j)
    ensures r.None? <==> forall j :: 0 <= j < |entries| ==> Candidate(entries[j], file).None?
  {
    var keys := seq(|entries|, i requires 0 <= i < |entries| => Key(order, entries[i]));
    var ok := seq(|entries|, i requires 0 <= i < |entries| => Candidate(entries[i], file).Some?);
    assert forall j :: 0 <= j < |entries| ==> (ok[j] <==> Candidate(entries[j], file).Some?);
    Earliest(keys, ok)
  }

  /** The module name the `sys.path` loop returns, or `None` when it falls
      through. */
  function Search(entries: seq<Entry>, file: Path, order: Order): (r: Option<string>)
    ensures r.None? <==> forall j :: 0 <= j < |entries| ==> Candidate(entries[j], file).None?
    ensures r.Some? ==> var i := Select(entries, file, order).value;
                          r.value == JoinDots(ModuleParts(file[|entries[i].abs|..]))
  {
    match Select(entries, file, order)
    case None => None
    case Some(i) => Some(JoinDots(Candidate(entries[i], file).value))
  }

  /** Every entry that contains `file` is listed by its absolute text, as
      when those `sys.path` entries are absolute, normalised directories;
      other entries, such as a leading `""`, may be listed any way. */
  predicate ListedAbsolute(entries: seq<Entry>, file: Path) {
    forall j :: 0 <= j < |entries| && Candidate(entries[j], file).Some? ==> entries[j].raw == Text(entries[j].abs)
  }

  /** Two directory prefixes of one file are nested; the deeper one has the
      longer text. */
  lemma NestedCandidates(a: Entry, b: Entry, file: Path)
    requires a.raw == Text(a.abs) && b.raw == Text(b.abs)
    requires Candidate(a, file).Some? && Candidate(b, file).Some?
    ensures IsPrefix(a.abs, b.abs) || (IsPrefix(b.abs, a.abs) && |b.raw| < |a.raw|)
  {
    assert file[..|b.abs|] == b.abs && file[..|a.abs|] == a.abs;
    if |b.abs| < |a.abs| {
      assert a.abs[..|b.abs|] == file[..|b.abs|];
      DeeperIsLonger(b.abs, a.abs);
    } else {
      assert b.abs[..|a.abs|] == file[..|a.abs|];
    }
  }

  /** Shortest-first, the entry chosen is the outermost: it is an ancestor
      of every other entry that could have named the module. */
  lemma ShortestFirstPicksOutermost(entries: seq<Entry>, file: Path)
    requires ListedAbsolute(entries, file)
    requires Select(entries, file, ShortestFirst).Some?
    ensures var c := Select(entries, file, ShortestFirst).value;
            forall j :: 0 <= j < |entries| && Candidate(entries[j], file).Some? ==>
              IsPrefix(entries[c].abs, entries[j].abs)
  {
    var c := Select(entries, file, ShortestFirst).value;
    forall j | 0 <= j < |entries| && Candidate(entries[j], file).Some?
      ensures IsPrefix(entries[c].abs, entries[j].abs)
    {
      NestedCandidates(entries[c], entries[j], file);
    }
  }

  /** Longest-first, the entry chosen is the most specific: every other entry
      that could have named the module is one of its ancestors. */
  lemma LongestFirstPicksInnermost(entries: seq<Entry>, file: Path)
    requires ListedAbsolute(entries, file)
    requires Select(entries, file, LongestFirst).Some?
    ensures var c := Select(entries, file, LongestFirst).value;
            forall j :: 0 <= j < |entries| && Candidate(entries[j], file).Some? ==>
              IsPrefix(entries[j].abs, entries[c].abs)
  {
    var c := Select(entries, file, LongestFirst).value;
    forall j | 0 <= j < |entries| && Candidate(entries[j], file).Some?
      ensures IsPrefix(entries[j].abs, entries[c].abs)
    {
      NestedCandidates(entries[j], entries[c], file);
    }
  }

  /** Of two matching entries with texts of different lengths, the shorter
      is scanned first shortest-first and the longer longest-first. */
  lemma TwoMatchesByLength(entries: seq<Entry>, file: Path)
    requires |entries| == 2 && |entries[0].raw| < |entries[1].raw|
    requires Candidate(entries[0], file).Some? && Candidate(entries[1], file).Some?
    ensures Select(entries, file, ShortestFirst) == Some(0)
    ensures Select(entries, file, LongestFirst) == Some(1)
    ensures Search(entries, file, ShortestFirst) == Some(JoinDots(Candidate(entries[0], file).value))
    ensures Search(entries, file, LongestFirst) == Some(JoinDots(Candidate(entries[1], file).value))
  {
    assert Select(entries, file, ShortestFirst).Some?;
    assert !ScannedNoLater(ShortestFirst, entries, 1, 0);
    assert Select(entries, file, LongestFirst).Some?;
    assert !ScannedNoLater(LongestFirst, entries, 0, 1);
  }

  /** The two entries of `sys.path == ["", "/a"]`, run from `/a/b`, both
      contain `/a/b/m.py`, and `""` stands for the inner directory. */
  lemma RelativeEntryCandidates()
    ensures IsPrefix(["a"], ["a", "b"]) && !IsPrefix(["a", "b"], ["a"])
    ensures JoinDots(["m"]) == "m" && JoinDots(["b", "m"]) == "b.m"
    ensures Candidate(Entry("", ["a", "b"]), ["a", "b", "m.py"]) == Some(["m"])
    ensures Candidate(Entry("/a", ["a"]), ["a", "b", "m.py"]) == Some(["b", "m"])
  {
    var file := ["a", "b", "m.py"];
    assert HasNonDot("m") by { assert "m"[0] != '.'; }
    StripExtOfSuffixed("m", "py");
    assert "m" + "." + "py" == "m.py";
    assert file[2..] == ["m.py"];
    assert file[1..] == ["b", "m.py"];
    assert ModuleParts(["m.py"]) == ["m"];
    assert ModuleParts(["b", "m.py"]) == ["b", "m"];
    assert ["a", "b"][..1] == ["a"];
    JoinTwo("b", "m");
  }

  /** Both entries of that `sys.path` match, the relative one with the
      shorter text. */
  lemma RelativeEntryMatches(entries: seq<Entry>, file: Path)
    requires entries == [Entry("", ["a", "b"]), Entry("/a", ["a"])] && file == ["a", "b", "m.py"]
    ensures |entries| == 2 && |entries[0].raw| < |entries[1].raw|
    ensures Candidate(entries[0], file).Some? && JoinDots(Candidate(entries[0], file).value) == "m"
    ensures Candidate(entries[1], file).Some? && JoinDots(Candidate(entries[1], file).value) == "b.m"
  {
    RelativeEntryCandidates();
  }

  /** `".".join([a, b])` */
  lemma JoinTwo(a: string, b: string)
    ensures JoinDots([a, b]) == a + "." + b
  {
    assert [a, b][1..] == [b];
  }

  /** The length order is an order on the listed text, not on directories:
      with `sys.path == ["", "/a"]`, run from `/a/b`, the file `/a/b/m.py`
      is named `m` shortest-first, from the entry `""` that stands for the
      inner directory `/a/b`, and `b.m` longest-first, from the outer `/a`.
      Neither scan then keeps the outermost or innermost property. */
  lemma RelativeEntryReversesNesting(entries: seq<Entry>, file: Path)
    requires entries == [Entry("", ["a", "b"]), Entry("/a", ["a"])] && file == ["a", "b", "m.py"]
    ensures && Select(entries, file, ShortestFirst) == Some(0)
            && Select(entries, file, LongestFirst) == Some(1)
            && Search(entries, file, ShortestFirst) == Some("m")
            && Search(entries, file, LongestFirst) == Some("b.m")
  {
    RelativeEntryMatches(entries, file);
    TwoMatchesByLength(entries, file);
  }
}
