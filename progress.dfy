/**
 * The progress scorer: the host calls it with a user's log history, an
 * optional scope and the loaded section manifest (structure.json), and it
 * records one scored item into a grade accumulator.
 */
module Progress {
  import opened Common

  /** One entry of a user's log history; `kind` is the entry's `type` field. */
  datatype LogEntry = LogEntry(kind: string, identifier: string, rejected: bool)

  /** The user's stored progress document; its `logs` array may be absent. */
  datatype ProgressDoc = ProgressDoc(logs: Option<seq<LogEntry>>)

  /** The value stored under one file name of the manifest. */
  datatype FileEntry =
    | Falsy                                // null, false, 0 or "": JavaScript reads it as false
    | Entry(sections: Option<seq<string>>) // an object, whose `sections` list may be absent

  /** structure.json: file names with their entries, in the object's key order. */
  type Manifest = seq<(string, FileEntry)>

  /** One scored item recorded with the accumulator: bucket, earned points, maximum points. */
  datatype Item = Item(bucket: string, earned: int, max: int)

  /** A call made on the accumulator, in the order it was made. */
  datatype Call = PassSet(n: int) | Added(item: Item)

  /** The full-credit item, `add('completion', 1)` with the default maximum of 1. */
  function Completion(): Item { Item("completion", 1, 1) }

  // ---------------------------------------------------------------------
  // The seen-set

  /** A log entry counts for scoring when it is a `show` entry that was not rejected. */
  predicate Scored(e: LogEntry) { e.kind == "show" && !e.rejected }

  /** The log array, a missing one read as empty. */
  function LogsOf(p: ProgressDoc): seq<LogEntry>
  {
    match p.logs
    case None => []
    case Some(logs) => logs
  }

  /** The identifiers of the scored entries, as filter, map and `new Set` build them. */
  function SeenSet(logs: seq<LogEntry>): (r: set<string>)
    ensures forall id :: id in r <==>
              exists i :: 0 <= i < |logs| && Scored(logs[i]) && logs[i].identifier == id
  {
    if logs == [] then {}
    else
      var rest := SeenSet(logs[1..]);
      assert forall i :: 1 <= i < |logs| ==> logs[i] == logs[1..][i - 1];
      (if Scored(logs[0]) then {logs[0].identifier} else {}) + rest
  }

  lemma {:induction false} SeenSetGrows(logs: seq<LogEntry>, extra: seq<LogEntry>)
    ensures SeenSet(logs) <= SeenSet(logs + extra)
  {
    forall id | id in SeenSet(logs) ensures id in SeenSet(logs + extra) {
      var i :| 0 <= i < |logs| && Scored(logs[i]) && logs[i].identifier == id;
      assert (logs + extra)[i] == logs[i];
    }
  }

  // ---------------------------------------------------------------------
  // The manifest

  /** `structure[key]`: the entry under the first occurrence of `key`, if any. */
  function Lookup(m: Manifest, key: string): (r: Option<FileEntry>)
    ensures r.None? <==> forall i :: 0 <= i < |m| ==> m[i].0 != key
    ensures r.Some? ==> (key, r.value) in m
  {
    if m == [] then None
    else if m[0].0 == key then Some(m[0].1)
    else
      assert forall i :: 1 <= i < |m| ==> m[i] == m[1..][i - 1];
      Lookup(m[1..], key)
  }

  /** `Object.keys(structure)`, in manifest order. */
  function Keys(m: Manifest): (r: seq<string>)
    ensures |r| == |m| && forall i :: 0 <= i < |m| ==> r[i] == m[i].0
  {
    if m == [] then [] else [m[0].0] + Keys(m[1..])
  }

  predicate IsKey(m: Manifest, file: string) { exists i :: 0 <= i < |m| && m[i].0 == file }

  /** The scope applies when `identifier && structure[identifier]` is truthy. */
  predicate Scoped(identifier: Option<string>, m: Manifest)
  {
    identifier.Some? && identifier.value != "" &&
    Lookup(m, identifier.value).Some? && Lookup(m, identifier.value).value.Entry?
  }

  /** The files to score: the scope alone, or every manifest key in manifest order. */
  function FilesToScore(identifier: Option<string>, m: Manifest): (r: seq<string>)
    ensures forall i :: 0 <= i < |r| ==> IsKey(m, r[i])
    ensures Scoped(identifier, m) ==> r == [identifier.value]
    ensures !Scoped(identifier, m) ==> |r| == |m| && forall i :: 0 <= i < |m| ==> r[i] == m[i].0
  {
    if Scoped(identifier, m) then [identifier.value] else Keys(m)
  }

  /** `(structure[file] && structure[file].sections) || []`. */
  function SectionsOf(m: Manifest, file: string): seq<string>
  {
    match Lookup(m, file)
    case Some(Entry(Some(sections))) => sections
    case _ => []
  }

  /** The log identifier a section is shown under. */
  function SectionKey(file: string, sectionId: string): string { file + ":" + sectionId }

  // ---------------------------------------------------------------------
  // Counting

  /** The number of `sections` of `file` whose key is in `seen`. */
  function SeenIn(file: string, sections: seq<string>, seen: set<string>): (r: nat)
    ensures r <= |sections|
  {
    if sections == [] then 0
    else
      var last := sections[|sections| - 1];
      SeenIn(file, sections[..|sections| - 1], seen) + (if SectionKey(file, last) in seen then 1 else 0)
  }

  /** The number of sections declared for `files`, pooled over all of them. */
  function TotalSections(m: Manifest, files: seq<string>): nat
  {
    if files == [] then 0
    else TotalSections(m, files[..|files| - 1]) + |SectionsOf(m, files[|files| - 1])|
  }

  /** The number of those sections whose key is in `seen`, pooled over all files. */
  function SeenSections(m: Manifest, files: seq<string>, seen: set<string>): (r: nat)
    ensures r <= TotalSections(m, files)
  {
    if files == [] then 0
    else
      var last := files[|files| - 1];
      SeenSections(m, files[..|files| - 1], seen) + SeenIn(last, SectionsOf(m, last), seen)
  }

  /** Every section of every file in `files` has been seen. */
  predicate AllSectionsSeen(m: Manifest, files: seq<string>, seen: set<string>)
  {
    forall i, j :: 0 <= i < |files| && 0 <= j < |SectionsOf(m, files[i])| ==>
      SectionKey(files[i], SectionsOf(m, files[i])[j]) in seen
  }

  /** No section of any file in `files` has been seen. */
  predicate NoSectionSeen(m: Manifest, files: seq<string>, seen: set<string>)
  {
    forall i, j :: 0 <= i < |files| && 0 <= j < |SectionsOf(m, files[i])| ==>
      SectionKey(files[i], SectionsOf(m, files[i])[j]) !in seen
  }

  /** The nested forEach loops of the scorer: total and seen counts over `files`. */
  method CountSections(m: Manifest, files: seq<string>, seen: set<string>)
    returns (totalSections: nat, seenSections: nat)
    ensures totalSections == TotalSections(m, files)
    ensures seenSections == SeenSections(m, files, seen)
  {
    totalSections, seenSections := 0, 0;
    var i := 0;
    while i < |files|
      invariant 0 <= i <= |files|
      invariant totalSections == TotalSections(m, files[..i])
      invariant seenSections == SeenSections(m, files[..i], seen)
    {
      var file := files[i];
      var sections := SectionsOf(m, file);
      var j := 0;
      while j < |sections|
        invariant 0 <= j <= |sections|
        invariant totalSections == TotalSections(m, files[..i]) + j
        invariant seenSections == SeenSections(m, files[..i], seen) + SeenIn(file, sections[..j], seen)
      {
        assert sections[..j + 1][..j] == sections[..j];
        totalSections := totalSections + 1;
        if SectionKey(file, sections[j]) in seen {
          seenSections := seenSections + 1;
        }
        j := j + 1;
      }
      assert sections[..j] == sections;
      assert files[..i + 1][..i] == files[..i];
      i := i + 1;
    }
    assert files[..i] == files;
  }

  // ---------------------------------------------------------------------
  // The scored item

  /** The one item the scorer records for these inputs. */
  function ScoredItem(identifier: Option<string>, progress: ProgressDoc, loaded: Option<Manifest>): (r: Item)
    ensures loaded.None? ==> r == Completion()
    ensures r == Completion() || (r.bucket == "sections" && 0 <= r.earned <= r.max && 0 < r.max)
  {
    match loaded
    case None => Completion()
    case Some(m) =>
      var files := FilesToScore(identifier, m);
      var total := TotalSections(m, files);
      if total == 0 then Completion()
      else Item("sections", SeenSections(m, files, SeenSet(LogsOf(progress))), total)
  }

  /**
   * The accumulator the host passes in. Its grade arithmetic belongs to the
   * host; the model keeps the calls made on it, in order.
   */
  class ProgressResult {
    var calls: seq<Call>

    constructor ()
      ensures calls == []
    {
      calls := [];
    }

    /** `setToPass(n)`: the denominator of the raw score. */
    method SetToPass(n: int)
      modifies this
      ensures calls == old(calls) + [PassSet(n)]
    {
      calls := calls + [PassSet(n)];
    }

    /** `add(type, value, count)`: record one scored item. */
    method Add(bucket: string, value: int, count: int)
      modifies this
      ensures calls == old(calls) + [Added(Item(bucket, value, count))]
    {
      calls := calls + [Added(Item(bucket, value, count))];
    }
  }

  /** The exported scoring function, with the loader's result given as `loaded`. */
  method Score(identifier: Option<string>, progress: ProgressDoc, loaded: Option<Manifest>,
               progressResult: ProgressResult)
    modifies progressResult
    ensures progressResult.calls ==
              old(progressResult.calls) + [PassSet(1), Added(ScoredItem(identifier, progress, loaded))]
  {
    progressResult.SetToPass(1);
    if loaded.None? {
      progressResult.Add("completion", 1, 1);
      return;
    }
    var structure := loaded.value;
    var seen := SeenSet(LogsOf(progress));
    var filesToScore := FilesToScore(identifier, structure);
    var totalSections, seenSections := CountSections(structure, filesToScore, seen);
    if totalSections == 0 {
      progressResult.Add("completion", 1, 1);
      return;
    }
    progressResult.Add("sections", seenSections, totalSections);
  }

  // ---------------------------------------------------------------------
  // Properties of the counts

  lemma {:induction false} SeenInAll(file: string, sections: seq<string>, seen: set<string>)
    ensures SeenIn(file, sections, seen) == |sections| <==>
              forall j :: 0 <= j < |sections| ==> SectionKey(file, sections[j]) in seen
  {
    if sections != [] {
      var init := sections[..|sections| - 1];
      SeenInAll(file, init, seen);
      assert forall j :: 0 <= j < |init| ==> init[j] == sections[j];
    }
  }

  lemma {:induction false} SeenInNone(file: string, sections: seq<string>, seen: set<string>)
    ensures SeenIn(file, sections, seen) == 0 <==>
              forall j :: 0 <= j < |sections| ==> SectionKey(file, sections[j]) !in seen
  {
    if sections != [] {
      var init := sections[..|sections| - 1];
      SeenInNone(file, init, seen);
      assert forall j :: 0 <= j < |init| ==> init[j] == sections[j];
    }
  }

  lemma {:induction false} SeenInMonotone(file: string, sections: seq<string>, seen: set<string>, more: set<string>)
    requires seen <= more
    ensures SeenIn(file, sections, seen) <= SeenIn(file, sections, more)
  {
    if sections != [] {
      SeenInMonotone(file, sections[..|sections| - 1], seen, more);
    }
  }

  /** Every section has been seen exactly when the seen count reaches the total. */
  lemma {:induction false} FullCoverage(m: Manifest, files: seq<string>, seen: set<string>)
    ensures SeenSections(m, files, seen) == TotalSections(m, files) <==> AllSectionsSeen(m, files, seen)
  {
    if files != [] {
      var init, last := files[..|files| - 1], files[|files| - 1];
      FullCoverage(m, init, seen);
      SeenInAll(last, SectionsOf(m, last), seen);
      assert forall i :: 0 <= i < |init| ==> init[i] == files[i];
      if AllSectionsSeen(m, files, seen) {
        assert AllSectionsSeen(m, init, seen);
        forall j | 0 <= j < |SectionsOf(m, last)|
          ensures SectionKey(last, SectionsOf(m, last)[j]) in seen
        {
          assert files[|files| - 1] == last;
        }
      }
    }
  }

  /** No section has been seen exactly when the seen count is zero. */
  lemma {:induction false} NoCoverage(m: Manifest, files: seq<string>, seen: set<string>)
    ensures SeenSections(m, files, seen) == 0 <==> NoSectionSeen(m, files, seen)
  {
    if files != [] {
      var init, last := files[..|files| - 1], files[|files| - 1];
      NoCoverage(m, init, seen);
      SeenInNone(last, SectionsOf(m, last), seen);
      assert forall i :: 0 <= i < |init| ==> init[i] == files[i];
      if NoSectionSeen(m, files, seen) {
        assert NoSectionSeen(m, init, seen);
        forall j | 0 <= j < |SectionsOf(m, last)|
          ensures SectionKey(last, SectionsOf(m, last)[j]) !in seen
        {
          assert files[|files| - 1] == last;
        }
      }
    }
  }

  lemma {:induction false} SeenSectionsMonotone(m: Manifest, files: seq<string>, seen: set<string>, more: set<string>)
    requires seen <= more
    ensures SeenSections(m, files, seen) <= SeenSections(m, files, more)
  {
    if files != [] {
      var last := files[|files| - 1];
      SeenSectionsMonotone(m, files[..|files| - 1], seen, more);
      SeenInMonotone(last, SectionsOf(m, last), seen, more);
    }
  }

  /** Counts over a list of files are pooled: the total of two lists is the sum of their totals. */
  lemma {:induction false} TotalSectionsAppend(m: Manifest, a: seq<string>, b: seq<string>)
    ensures TotalSections(m, a + b) == TotalSections(m, a) + TotalSections(m, b)
  {
    if b != [] {
      var b' := b[..|b| - 1];
      assert (a + b)[..|a + b| - 1] == a + b';
      TotalSectionsAppend(m, a, b');
    } else {
      assert a + b == a;
    }
  }

  // ---------------------------------------------------------------------
  // Properties of the scored item

  /** Full credit exactly when there is no manifest or every section in scope has been shown. */
  lemma FullCreditIff(identifier: Option<string>, progress: ProgressDoc, loaded: Option<Manifest>)
    ensures var r := ScoredItem(identifier, progress, loaded);
      r.earned == r.max <==>
        (loaded.None? ||
         AllSectionsSeen(loaded.value, FilesToScore(identifier, loaded.value), SeenSet(LogsOf(progress))))
  {
    if loaded.Some? {
      FullCoverage(loaded.value, FilesToScore(identifier, loaded.value), SeenSet(LogsOf(progress)));
    }
  }

  /** A zero grade exactly when there are sections in scope and none of them has been shown. */
  lemma ZeroGradeIff(identifier: Option<string>, progress: ProgressDoc, loaded: Option<Manifest>)
    ensures var r := ScoredItem(identifier, progress, loaded);
      r.earned == 0 <==>
        (loaded.Some? &&
         TotalSections(loaded.value, FilesToScore(identifier, loaded.value)) > 0 &&
         NoSectionSeen(loaded.value, FilesToScore(identifier, loaded.value), SeenSet(LogsOf(progress))))
  {
    if loaded.Some? {
      NoCoverage(loaded.value, FilesToScore(identifier, loaded.value), SeenSet(LogsOf(progress)));
    }
  }

  /** The sections bucket is used exactly when the manifest is present and the scope has sections. */
  lemma SectionsBucketIff(identifier: Option<string>, progress: ProgressDoc, loaded: Option<Manifest>)
    ensures var r := ScoredItem(identifier, progress, loaded);
      (r.bucket == "sections" <==>
         loaded.Some? && TotalSections(loaded.value, FilesToScore(identifier, loaded.value)) > 0) &&
      (r.bucket == "sections" ==>
         r.max == TotalSections(loaded.value, FilesToScore(identifier, loaded.value)))
  {
  }

  /** More log entries never lower the seen count and never change the total. */
  lemma MoreLogsNeverLower(identifier: Option<string>, logs: seq<LogEntry>, extra: seq<LogEntry>, loaded: Option<Manifest>)
    ensures var before := ScoredItem(identifier, ProgressDoc(Some(logs)), loaded);
            var after := ScoredItem(identifier, ProgressDoc(Some(logs + extra)), loaded);
      after.bucket == before.bucket && after.max == before.max && before.earned <= after.earned
  {
    if loaded.Some? {
      SeenSetGrows(logs, extra);
      SeenSectionsMonotone(loaded.value, FilesToScore(identifier, loaded.value),
                           SeenSet(logs), SeenSet(logs + extra));
    }
  }

  /** With a scope that applies, only that file's sections are counted. */
  lemma ScopedTotal(identifier: Option<string>, m: Manifest)
    requires Scoped(identifier, m)
    ensures TotalSections(m, FilesToScore(identifier, m)) == |SectionsOf(m, identifier.value)|
  {
  }

  // ---------------------------------------------------------------------
  // Worked examples

  /** One of two sections shown: one point out of two. */
  lemma ExampleHalf()
    ensures ScoredItem(Some("index"),
                       ProgressDoc(Some([LogEntry("show", "index:s1", false)])),
                       Some([("index", Entry(Some(["s1", "s2"])))]))
            == Item("sections", 1, 2)
  {
    var m: Manifest := [("index", Entry(Some(["s1", "s2"])))];
    var seen := SeenSet([LogEntry("show", "index:s1", false)]);
    assert seen == {"index:s1"};
    assert SectionKey("index", "s2")[7] != "index:s1"[7];
    assert FilesToScore(Some("index"), m) == ["index"];
    assert SectionsOf(m, "index") == ["s1", "s2"];
    assert ["s1", "s2"][..1] == ["s1"];
    assert ["index"][..0] == [];
  }

  /** A rejected entry does not count: no point out of two. */
  lemma ExampleRejected()
    ensures ScoredItem(Some("index"),
                       ProgressDoc(Some([LogEntry("show", "index:s1", true)])),
                       Some([("index", Entry(Some(["s1", "s2"])))]))
            == Item("sections", 0, 2)
  {
  }

  /**
   * Counts are pooled across files, not averaged: one of four sections over
   * two files gives one point out of four, although one file is fully shown.
   */
  lemma ExamplePooled()
    ensures ScoredItem(None,
                       ProgressDoc(Some([LogEntry("show", "a:s1", false)])),
                       Some([("a", Entry(Some(["s1"]))), ("b", Entry(Some(["s1", "s2", "s3"])))]))
            == Item("sections", 1, 4)
  {
    var m: Manifest := [("a", Entry(Some(["s1"]))), ("b", Entry(Some(["s1", "s2", "s3"])))];
    var seen := SeenSet([LogEntry("show", "a:s1", false)]);
    assert seen == {"a:s1"};
    assert !Scoped(None, m);
    assert FilesToScore(None, m) == ["a", "b"];
    assert SectionsOf(m, "a") == ["s1"];
    assert SectionsOf(m, "b") == ["s1", "s2", "s3"];
    assert ["a", "b"][..1] == ["a"];
    assert ["a"][..0] == [];
    assert ["s1"][..0] == [];
    assert ["s1", "s2", "s3"][..2] == ["s1", "s2"];
    assert ["s1", "s2"][..1] == ["s1"];
    forall s | s in ["s1", "s2", "s3"] ensures SectionKey("b", s) !in seen {
      assert SectionKey("b", s)[0] != "a:s1"[0];
    }
    assert SeenIn("b", ["s1", "s2", "s3"], seen) == 0;
  }
}
