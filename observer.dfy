/**
 * The section observer of a lesson page: on the seen-set callback it resumes
 * the sections the user has already seen, schedules a scroll to the last one,
 * and logs sections that are (or become) visible, under `index:<id>`.
 *
 * The document is a sequence of elements in tree order; an element is an id
 * (possibly empty), a tag name and whether it has the class `visible`.
 */
module Observer {
  import opened Common

  datatype Element = Element(id: string, tag: string, visible: bool)

  /** A call `LTITracker.log(kind, identifier)`. */
  datatype LogCall = LogCall(kind: string, identifier: string)

  /** The document after the resume loop, with the `lastSec` reference as an index. */
  datatype ResumeState = ResumeState(nodes: seq<Element>, last: Option<nat>)

  /** The file prefix of this page's identifiers. */
  const FilePrefix: string := "index:"
  const SectionWord: string := "section"

  // ---------------------------------------------------------------------
  // The pattern /^index:(section\d+)$/

  predicate IsDigit(c: char) { '0' <= c <= '9' }

  /** Every character is a decimal digit (`\d*` anchored at both ends). */
  predicate Digits(s: string)
  {
    s == [] || (IsDigit(s[0]) && Digits(s[1..]))
  }

  lemma {:induction false} DigitsAt(s: string)
    ensures Digits(s) <==> forall i :: 0 <= i < |s| ==> IsDigit(s[i])
  {
    if s != [] {
      DigitsAt(s[1..]);
      assert forall i :: 1 <= i < |s| ==> s[i] == s[1..][i - 1];
    }
  }

  /** An element id of the form `section<digits>`, with at least one digit. */
  predicate IsSectionId(x: string)
  {
    |x| > |SectionWord| && x[..|SectionWord|] == SectionWord &&
    forall i :: |SectionWord| <= i < |x| ==> IsDigit(x[i])
  }

  /** `id.match(/^index:(section\d+)$/)`, giving the captured group. */
  function MatchResume(s: string): Option<string>
  {
    var literal := FilePrefix + SectionWord;
    if |s| > |literal| && s[..|literal|] == literal && Digits(s[|literal|..])
    then Some(s[|FilePrefix|..])
    else None
  }

  /** What the pattern captures: the part after `index:`, which is a section id. */
  lemma MatchSound(s: string)
    requires MatchResume(s).Some?
    ensures s == FilePrefix + MatchResume(s).value && IsSectionId(MatchResume(s).value)
  {
    var literal := FilePrefix + SectionWord;
    var x := MatchResume(s).value;
    assert x == s[|FilePrefix|..];
    assert s[..|FilePrefix|] == s[..|literal|][..|FilePrefix|] == FilePrefix;
    assert s == s[..|FilePrefix|] + x;
    assert x[..|SectionWord|] == s[..|literal|][|FilePrefix|..] == SectionWord;
    DigitsAt(s[|literal|..]);
    forall i | |SectionWord| <= i < |x| ensures IsDigit(x[i]) {
      assert x[i] == s[|literal|..][i - |SectionWord|];
    }
  }

  /** Every identifier of the form `index:section<digits>` is matched, capturing the id. */
  lemma MatchComplete(x: string)
    requires IsSectionId(x)
    ensures MatchResume(FilePrefix + x) == Some(x)
  {
    var literal := FilePrefix + SectionWord;
    var s := FilePrefix + x;
    assert s[..|literal|] == FilePrefix + x[..|SectionWord|] == literal;
    var rest := s[|literal|..];
    forall i | 0 <= i < |rest| ensures IsDigit(rest[i]) {
      assert rest[i] == x[i + |SectionWord|];
    }
    DigitsAt(rest);
    assert s[|FilePrefix|..] == x;
  }

  /** The pattern captures `x` from `s` exactly when `s` is `index:` followed by a section id `x`. */
  lemma MatchIff(s: string, x: string)
    ensures MatchResume(s) == Some(x) <==> s == FilePrefix + x && IsSectionId(x)
  {
    if MatchResume(s).Some? {
      MatchSound(s);
    }
    if s == FilePrefix + x && IsSectionId(x) {
      MatchComplete(x);
    }
  }

  // ---------------------------------------------------------------------
  // Looking elements up

  /** `document.getElementById(x)`: the first element in tree order with id `x`. */
  function FindById(nodes: seq<Element>, x: string): (r: Option<nat>)
    ensures r.Some? ==> r.value < |nodes| && nodes[r.value].id == x &&
                        forall j :: 0 <= j < r.value ==> nodes[j].id != x
    ensures r.None? ==> forall j :: 0 <= j < |nodes| ==> nodes[j].id != x
  {
    if nodes == [] then None
    else if nodes[0].id == x then Some(0)
    else
      match FindById(nodes[1..], x)
      case None =>
        assert forall j :: 1 <= j < |nodes| ==> nodes[j] == nodes[1..][j - 1];
        None
      case Some(k) =>
        assert forall j :: 1 <= j <= k ==> nodes[j] == nodes[1..][j - 1];
        Some(k + 1)
  }

  /** The element a seen identifier resumes, if it matches and names an existing element. */
  function Target(nodes: seq<Element>, s: string): (r: Option<nat>)
    ensures r.Some? ==> r.value < |nodes|
  {
    match MatchResume(s)
    case None => None
    case Some(x) => FindById(nodes, x)
  }

  /** Two documents with the same elements, ids and tags, in the same order. */
  predicate SameShape(a: seq<Element>, b: seq<Element>)
  {
    |a| == |b| && forall k :: 0 <= k < |a| ==> a[k].id == b[k].id && a[k].tag == b[k].tag
  }

  lemma FindByIdSameShape(a: seq<Element>, b: seq<Element>, x: string)
    requires SameShape(a, b)
    ensures FindById(a, x) == FindById(b, x)
  {
  }

  // ---------------------------------------------------------------------
  // Resume

  /** The resume loop over `seen`, in iteration order, from the document `nodes`. */
  function Resumed(nodes: seq<Element>, seen: seq<string>): (r: ResumeState)
    ensures SameShape(nodes, r.nodes)
    ensures forall k :: 0 <= k < |nodes| && nodes[k].visible ==> r.nodes[k].visible
    ensures r.last.Some? ==> r.last.value < |nodes|
  {
    if seen == [] then ResumeState(nodes, None)
    else
      var prev := Resumed(nodes, seen[..|seen| - 1]);
      match Target(prev.nodes, seen[|seen| - 1])
      case None => prev
      case Some(k) => ResumeState(prev.nodes[k := prev.nodes[k].(visible := true)], Some(k))
  }

  /** Some identifier of `seen` resumes element `k`. */
  predicate Named(nodes: seq<Element>, seen: seq<string>, k: nat)
  {
    exists i :: 0 <= i < |seen| && Target(nodes, seen[i]) == Some(k)
  }

  /**
   * Resume only adds the `visible` class, and only to the elements a matching
   * identifier names; every other element is unchanged.
   */
  lemma {:induction false} ResumedAt(nodes: seq<Element>, seen: seq<string>, k: nat)
    requires k < |nodes|
    ensures Resumed(nodes, seen).nodes[k] ==
              if Named(nodes, seen, k) then nodes[k].(visible := true) else nodes[k]
  {
    if seen != [] {
      var init, s := seen[..|seen| - 1], seen[|seen| - 1];
      var prev := Resumed(nodes, init);
      ResumedAt(nodes, init, k);
      assert forall i :: 0 <= i < |init| ==> init[i] == seen[i];
      TargetStable(nodes, init, s);
      if Named(nodes, seen, k) && !Named(nodes, init, k) {
        assert Target(nodes, s) == Some(k);
      }
    }
  }

  /** Resuming never changes which element an identifier resumes. */
  lemma TargetStable(nodes: seq<Element>, seen: seq<string>, s: string)
    ensures Target(Resumed(nodes, seen).nodes, s) == Target(nodes, s)
  {
  }

  /** No identifier of `seen` from position `i` on resumes anything. */
  predicate NoneResumedFrom(nodes: seq<Element>, seen: seq<string>, i: nat)
  {
    forall j :: i <= j < |seen| ==> Target(nodes, seen[j]).None?
  }

  /** One step of the resume loop, as seen by `lastSec`. */
  lemma LastStep(nodes: seq<Element>, seen: seq<string>)
    requires seen != []
    ensures Resumed(nodes, seen).last ==
              if Target(nodes, seen[|seen| - 1]).Some? then Target(nodes, seen[|seen| - 1])
              else Resumed(nodes, seen[..|seen| - 1]).last
  {
  }

  /** `lastSec` stays null exactly when no identifier resumed anything. */
  lemma {:induction false} LastResumedNone(nodes: seq<Element>, seen: seq<string>)
    ensures Resumed(nodes, seen).last.None? <==> NoneResumedFrom(nodes, seen, 0)
  {
    if seen != [] {
      var init := seen[..|seen| - 1];
      LastStep(nodes, seen);
      LastResumedNone(nodes, init);
      assert forall i :: 0 <= i < |init| ==> init[i] == seen[i];
    }
  }

  /** Otherwise `lastSec` is the element resumed by the last identifier that resumed one. */
  lemma {:induction false} LastResumedSome(nodes: seq<Element>, seen: seq<string>)
    requires Resumed(nodes, seen).last.Some?
    ensures exists i :: 0 <= i < |seen| && Target(nodes, seen[i]) == Resumed(nodes, seen).last &&
                        NoneResumedFrom(nodes, seen, i + 1)
  {
    var n := |seen| - 1;
    var init := seen[..n];
    var last := Resumed(nodes, seen).last;
    LastStep(nodes, seen);
    if Target(nodes, seen[n]).Some? {
      assert Target(nodes, seen[n]) == last;
      assert NoneResumedFrom(nodes, seen, n + 1);
    } else {
      assert Resumed(nodes, init).last == last;
      LastResumedSome(nodes, init);
      var i :| 0 <= i < |init| && Target(nodes, init[i]) == last && NoneResumedFrom(nodes, init, i + 1);
      assert init[i] == seen[i];
      forall j | i + 1 <= j < |seen| ensures Target(nodes, seen[j]).None? {
        if j < n { assert init[j] == seen[j]; }
      }
    }
  }

  /** An identifier that resumes nothing can be dropped from `seen`, wherever it stands. */
  lemma {:induction false} SkippedIdentifier(nodes: seq<Element>, a: seq<string>, s: string, b: seq<string>)
    requires Target(nodes, s).None?
    ensures Resumed(nodes, a + [s] + b) == Resumed(nodes, a + b)
  {
    if b == [] {
      assert (a + [s] + b)[..|a + [s] + b| - 1] == a;
      assert a + b == a;
      TargetStable(nodes, a, s);
    } else {
      var b', y := b[..|b| - 1], b[|b| - 1];
      SkippedIdentifier(nodes, a, s, b');
      assert (a + [s] + b)[..|a + [s] + b| - 1] == a + [s] + b';
      assert (a + b)[..|a + b| - 1] == a + b';
      assert (a + [s] + b)[|a + [s] + b| - 1] == y == (a + b)[|a + b| - 1];
    }
  }

  // ---------------------------------------------------------------------
  // Logging

  /** A `<section>` with a non-empty id that has the class `visible`. */
  predicate Loggable(e: Element) { e.tag == "SECTION" && e.id != "" && e.visible }

  /** `LTITracker.log('show', 'index:' + el.id)`. */
  function ShowCall(e: Element): LogCall { LogCall("show", FilePrefix + e.id) }

  /** The calls made for `section.visible` elements with an id, in tree order. */
  function VisibleSectionLogs(nodes: seq<Element>): seq<LogCall>
  {
    if nodes == [] then []
    else
      var last := nodes[|nodes| - 1];
      VisibleSectionLogs(nodes[..|nodes| - 1]) + (if Loggable(last) then [ShowCall(last)] else [])
  }

  lemma {:induction false} VisibleSectionLogsIff(nodes: seq<Element>, c: LogCall)
    ensures c in VisibleSectionLogs(nodes) <==>
              exists k :: 0 <= k < |nodes| && Loggable(nodes[k]) && c == ShowCall(nodes[k])
  {
    if nodes != [] {
      var init := nodes[..|nodes| - 1];
      VisibleSectionLogsIff(init, c);
      assert forall k :: 0 <= k < |init| ==> init[k] == nodes[k];
    }
  }

  /** The non-empty ids of the document are pairwise distinct, as ids in a document should be. */
  predicate DistinctIds(nodes: seq<Element>)
  {
    forall j, k :: 0 <= j < k < |nodes| && nodes[j].id != "" ==> nodes[j].id != nodes[k].id
  }

  /** With distinct ids, the final pass logs each visible section exactly once. */
  lemma {:induction false} LoggedOnce(nodes: seq<Element>, k: nat)
    requires DistinctIds(nodes) && k < |nodes| && Loggable(nodes[k])
    ensures multiset(VisibleSectionLogs(nodes))[ShowCall(nodes[k])] == 1
  {
    var init, last := nodes[..|nodes| - 1], nodes[|nodes| - 1];
    var c := ShowCall(nodes[k]);
    assert forall j :: 0 <= j < |init| ==> init[j] == nodes[j];
    if k == |nodes| - 1 {
      VisibleSectionLogsIff(init, c);
      forall j | 0 <= j < |init| && Loggable(init[j]) ensures c != ShowCall(init[j]) {
        assert c.identifier[|FilePrefix|..] == nodes[k].id;
        assert ShowCall(init[j]).identifier[|FilePrefix|..] == init[j].id;
      }
      assert c !in VisibleSectionLogs(init);
    } else {
      LoggedOnce(init, k);
      if Loggable(last) {
        assert ShowCall(last).identifier[|FilePrefix|..] == last.id;
        assert c.identifier[|FilePrefix|..] == nodes[k].id;
        assert ShowCall(last) != c;
      }
    }
  }

  /** The calls the mutation handler makes for a batch of mutation targets. */
  function MutationLogs(nodes: seq<Element>, targets: seq<nat>): seq<LogCall>
    requires forall i :: 0 <= i < |targets| ==> targets[i] < |nodes|
  {
    if targets == [] then []
    else
      var el := nodes[targets[|targets| - 1]];
      MutationLogs(nodes, targets[..|targets| - 1]) + (if Loggable(el) then [ShowCall(el)] else [])
  }

  /** A mutation logs `index:<id>` exactly when its target is a visible section with an id. */
  lemma {:induction false} MutationLogsIff(nodes: seq<Element>, targets: seq<nat>, c: LogCall)
    requires forall i :: 0 <= i < |targets| ==> targets[i] < |nodes|
    ensures c in MutationLogs(nodes, targets) <==>
              exists i :: 0 <= i < |targets| && Loggable(nodes[targets[i]]) && c == ShowCall(nodes[targets[i]])
  {
    if targets != [] {
      var init := targets[..|targets| - 1];
      MutationLogsIff(nodes, init, c);
      assert forall i :: 0 <= i < |init| ==> init[i] == targets[i];
    }
  }

  /**
   * A resumed `<section>` is logged again by the final pass, under the very
   * identifier it was resumed from.
   */
  lemma ResumedSectionRelogged(nodes: seq<Element>, seen: seq<string>, i: nat, k: nat)
    requires i < |seen| && Target(nodes, seen[i]) == Some(k) && nodes[k].tag == "SECTION"
    ensures LogCall("show", seen[i]) in VisibleSectionLogs(Resumed(nodes, seen).nodes)
  {
    MatchSound(seen[i]);
    ResumedAt(nodes, seen, k);
    var after := Resumed(nodes, seen).nodes;
    assert Loggable(after[k]) && ShowCall(after[k]) == LogCall("show", seen[i]);
    VisibleSectionLogsIff(after, LogCall("show", seen[i]));
  }

  /**
   * Round trip to the element: the identifier logged for a section whose id is
   * `section<digits>` resumes the first element carrying that id.
   */
  lemma LoggedSectionResumes(nodes: seq<Element>, t: nat)
    requires t < |nodes| && Loggable(nodes[t]) && IsSectionId(nodes[t].id)
    ensures var k := Target(nodes, ShowCall(nodes[t]).identifier);
      k.Some? && k.value <= t && nodes[k.value].id == nodes[t].id
  {
    MatchComplete(nodes[t].id);
  }

  // ---------------------------------------------------------------------
  // The page

  class Page {
    /** The document, in tree order. */
    var nodes: seq<Element>
    /** The `LTITracker.log` calls made so far, in order. */
    var logCalls: seq<LogCall>
    /** The elements a delayed `scrollIntoView` was scheduled for, in order. */
    var scrolls: seq<nat>

    predicate Valid() reads this
    {
      forall i :: 0 <= i < |scrolls| ==> scrolls[i] < |nodes|
    }

    constructor (document: seq<Element>)
      ensures Valid() && nodes == document && logCalls == [] && scrolls == []
    {
      nodes, logCalls, scrolls := document, [], [];
    }

    /** The resume loop: mark every resumed element visible and return `lastSec`. */
    method Resume(seen: seq<string>) returns (lastSec: Option<nat>)
      modifies this`nodes
      ensures ResumeState(nodes, lastSec) == Resumed(old(nodes), seen)
    {
      lastSec := None;
      var i := 0;
      while i < |seen|
        invariant 0 <= i <= |seen|
        invariant ResumeState(nodes, lastSec) == Resumed(old(nodes), seen[..i])
      {
        assert seen[..i + 1][..i] == seen[..i];
        var captured := MatchResume(seen[i]);
        if captured.Some? {
          var sec := FindById(nodes, captured.value);
          if sec.Some? {
            nodes := nodes[sec.value := nodes[sec.value].(visible := true)];
            lastSec := sec;
          }
        }
        i := i + 1;
      }
      assert seen[..i] == seen;
    }

    /** `querySelectorAll('section.visible')`: log each one that has an id, in tree order. */
    method LogVisibleSections()
      modifies this`logCalls
      ensures logCalls == old(logCalls) + VisibleSectionLogs(nodes)
    {
      var j := 0;
      while j < |nodes|
        invariant 0 <= j <= |nodes|
        invariant logCalls == old(logCalls) + VisibleSectionLogs(nodes[..j])
      {
        assert nodes[..j + 1][..j] == nodes[..j];
        if Loggable(nodes[j]) {
          logCalls := logCalls + [ShowCall(nodes[j])];
        }
        j := j + 1;
      }
      assert nodes[..j] == nodes;
    }

    /** The body of the seen-set callback: resume, schedule the scroll, log visible sections. */
    method OnSeen(seen: seq<string>)
      requires Valid()
      modifies this
      ensures Valid()
      ensures nodes == Resumed(old(nodes), seen).nodes
      ensures scrolls == old(scrolls) + match Resumed(old(nodes), seen).last
                                        case None => []
                                        case Some(k) => [k]
      ensures logCalls == old(logCalls) + VisibleSectionLogs(nodes)
    {
      // 1. Resume
      var lastSec := Resume(seen);
      // 2. Scroll to the last resumed section
      if lastSec.Some? {
        scrolls := scrolls + [lastSec.value];
      }
      // 3. The mutation observer is attached here (see OnMutations).
      // 4. Log sections already visible
      LogVisibleSections();
    }

    /** The mutation observer's callback for a batch of mutations on `targets`. */
    method OnMutations(targets: seq<nat>)
      requires forall i :: 0 <= i < |targets| ==> targets[i] < |nodes|
      modifies this`logCalls
      ensures logCalls == old(logCalls) + MutationLogs(nodes, targets)
    {
      var i := 0;
      while i < |targets|
        invariant 0 <= i <= |targets|
        invariant logCalls == old(logCalls) + MutationLogs(nodes, targets[..i])
      {
        assert targets[..i + 1][..i] == targets[..i];
        var el := nodes[targets[i]];
        if Loggable(el) {
          logCalls := logCalls + [ShowCall(el)];
        }
        i := i + 1;
      }
      assert targets[..i] == targets;
    }
  }
}
