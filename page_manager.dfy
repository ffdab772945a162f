/**
 * `PageManager` of src/renderer/page.ts. A page is known by whether it is
 * active: `hide` makes it inactive and `toggle` flips it. The manager keeps
 * its pages in the order their names were first added, as a `Map` does, and
 * records every `hide` and `toggle` it calls.
 */
module PageManagement {
  import opened Wrappers

  datatype PageCall = Hide(name: string) | Toggle(name: string)

  /** Names of the registered pages, in order. */
  function Names(pages: seq<(string, bool)>): (r: seq<string>)
    ensures |r| == |pages| && forall i :: 0 <= i < |pages| ==> r[i] == pages[i].0
  {
    seq(|pages|, i requires 0 <= i < |pages| => pages[i].0)
  }

  /** No name is registered twice. */
  predicate DistinctNames(pages: seq<(string, bool)>) {
    forall i, j :: 0 <= i < j < |pages| ==> pages[i].0 != pages[j].0
  }

  function Find(pages: seq<(string, bool)>, name: string): (r: Option<nat>)
    ensures r.Some? ==> r.value < |pages| && pages[r.value].0 == name
    ensures r.None? ==> forall i :: 0 <= i < |pages| ==> pages[i].0 != name
    decreases |pages|
  {
    if pages == [] then None
    else if pages[0].0 == name then Some(0)
    else match Find(pages[1..], name)
      case None => None
      case Some(k) => Some(k + 1)
  }

  /** `pageMap.set(name, page)`: a known name keeps its place and gets the new page, a new one goes last. */
  function Added(pages: seq<(string, bool)>, name: string, active: bool): (r: seq<(string, bool)>)
    ensures Names(r) == Names(pages) || Names(r) == Names(pages) + [name]
  {
    match Find(pages, name)
    case Some(i) => pages[i := (name, active)]
    case None => pages + [(name, active)]
  }

  /** After `addPage`, the name holds the new page, nothing else changed, and names stay distinct. */
  lemma AddedReplaces(pages: seq<(string, bool)>, name: string, active: bool)
    requires DistinctNames(pages)
    ensures var r := Added(pages, name, active);
      && DistinctNames(r)
      && Find(r, name).Some? && r[Find(r, name).value] == (name, active)
      && (forall i :: 0 <= i < |pages| && pages[i].0 != name ==> pages[i] in r)
      && |r| == |pages| + (if Find(pages, name).Some? then 0 else 1)
  {
    var r := Added(pages, name, active);
    match Find(pages, name)
    case Some(i) =>
      assert r[i] == (name, active);
    case None =>
      assert r[|pages|] == (name, active);
  }

  /** The `hide` calls of `hideAll`: one per page, in order. */
  function HideEach(pages: seq<(string, bool)>): (r: seq<PageCall>)
    ensures |r| == |pages| && forall i :: 0 <= i < |pages| ==> r[i] == Hide(pages[i].0)
    decreases |pages|
  {
    if pages == [] then [] else HideEach(pages[..|pages| - 1]) + [Hide(pages[|pages| - 1].0)]
  }

  /** One page more adds one `hide` call for it. */
  lemma HideEachStep(pages: seq<(string, bool)>, k: nat)
    requires k < |pages|
    ensures HideEach(pages[..k + 1]) == HideEach(pages[..k]) + [Hide(pages[k].0)]
  {
    assert pages[..k + 1][..k] == pages[..k];
  }

  /** Two page lists with the same names in the same places have the same `Names`, and are distinct together. */
  lemma SameNames(a: seq<(string, bool)>, b: seq<(string, bool)>)
    requires |a| == |b| && forall i :: 0 <= i < |a| ==> a[i].0 == b[i].0
    ensures Names(a) == Names(b) && (DistinctNames(a) <==> DistinctNames(b))
  {
  }

  /** The pages once `hideAll` has hidden the first `k` of them. */
  function HiddenUpTo(pages: seq<(string, bool)>, k: nat): (r: seq<(string, bool)>)
    requires k <= |pages|
    ensures |r| == |pages|
    ensures forall i :: 0 <= i < |pages| ==> r[i] == if i < k then (pages[i].0, false) else pages[i]
  {
    seq(|pages|, i requires 0 <= i < |pages| => if i < k then (pages[i].0, false) else pages[i])
  }

  /** Hiding page `k` extends the hidden prefix by one. */
  lemma HiddenUpToStep(pages: seq<(string, bool)>, k: nat)
    requires k < |pages|
    ensures HiddenUpTo(pages, k)[k := (pages[k].0, false)] == HiddenUpTo(pages, k + 1)
  {
  }

  /** With every page hidden, the names and their order are unchanged, no page is active, and distinct names stay distinct. */
  lemma HiddenAll(pages: seq<(string, bool)>)
    ensures var r := HiddenUpTo(pages, |pages|);
      && Names(r) == Names(pages)
      && (forall i :: 0 <= i < |r| ==> !r[i].1)
      && (DistinctNames(pages) ==> DistinctNames(r))
      && pages[..|pages|] == pages
  {
    var r := HiddenUpTo(pages, |pages|);
    assert Names(r) == Names(pages);
  }

  /** The pages after the first loop of `toggle`: every active page other than the target is hidden. */
  function HideOthers(pages: seq<(string, bool)>, target: string): (r: seq<(string, bool)>)
    ensures |r| == |pages|
    ensures forall i :: 0 <= i < |pages| ==> r[i].0 == pages[i].0
    ensures forall i :: 0 <= i < |pages| ==> r[i].1 == (pages[i].1 && pages[i].0 == target)
  {
    seq(|pages|, i requires 0 <= i < |pages| => if pages[i].0 == target then pages[i] else (pages[i].0, false))
  }

  /** The `hide` calls of that loop, in order: one per active page other than the target. */
  function HideCalls(pages: seq<(string, bool)>, target: string): seq<PageCall>
    decreases |pages|
  {
    if pages == [] then []
    else
      var last := pages[|pages| - 1];
      HideCalls(pages[..|pages| - 1], target) + (if last.0 != target && last.1 then [Hide(last.0)] else [])
  }

  /** Only active pages other than the target are hidden, and no page is toggled by the loop. */
  lemma {:induction false} HideCallsMatch(pages: seq<(string, bool)>, target: string)
    ensures forall c :: c in HideCalls(pages, target) ==>
      && c.Hide? && c.name != target
      && exists i :: 0 <= i < |pages| && pages[i] == (c.name, true)
    ensures forall i :: 0 <= i < |pages| && pages[i].1 && pages[i].0 != target ==> Hide(pages[i].0) in HideCalls(pages, target)
    decreases |pages|
  {
    if pages != [] {
      var init := pages[..|pages| - 1];
      HideCallsMatch(init, target);
      forall c | c in HideCalls(pages, target)
        ensures c.Hide? && c.name != target && exists i :: 0 <= i < |pages| && pages[i] == (c.name, true)
      {
        if c in HideCalls(init, target) {
          var i :| 0 <= i < |init| && init[i] == (c.name, true);
          assert pages[i] == init[i];
        } else {
          assert pages[|pages| - 1] == (c.name, true);
        }
      }
      forall i | 0 <= i < |pages| && pages[i].1 && pages[i].0 != target
        ensures Hide(pages[i].0) in HideCalls(pages, target)
      {
        if i < |init| {
          assert init[i] == pages[i];
        }
      }
    }
  }

  class PageManager {
    var pages: seq<(string, bool)>
    var calls: seq<PageCall>
    /** The messages shown in the error dialog. */
    var errors: seq<string>

    ghost predicate Valid()
      reads this
    {
      DistinctNames(pages)
    }

    constructor()
      ensures Valid() && pages == [] && calls == [] && errors == []
    {
      pages := [];
      calls := [];
      errors := [];
    }

    /** `addPage(name, page)`. */
    method AddPage(name: string, active: bool)
      requires Valid()
      modifies this
      ensures Valid() && pages == Added(old(pages), name, active)
      ensures calls == old(calls) && errors == old(errors)
    {
      AddedReplaces(pages, name, active);
      pages := Added(pages, name, active);
    }

    /** `hideAll`: `hide` on every page, in order. */
    method HideAll()
      requires Valid()
      modifies this
      ensures Valid() && Names(pages) == Names(old(pages))
      ensures forall i :: 0 <= i < |pages| ==> !pages[i].1
      ensures calls == old(calls) + HideEach(old(pages))
      ensures errors == old(errors)
    {
      ghost var before := pages;
      var k := 0;
      while k < |pages|
        invariant 0 <= k <= |before| && pages == HiddenUpTo(before, k)
        invariant calls == old(calls) + HideEach(before[..k])
        invariant errors == old(errors)
        decreases |pages| - k
      {
        HideEachStep(before, k);
        HiddenUpToStep(before, k);
        calls := calls + [Hide(pages[k].0)];
        pages := pages[k := (pages[k].0, false)];
        k := k + 1;
      }
      HiddenAll(before);
    }

    /**
     * `toggle(target)`: every other active page is hidden in order, then the
     * target is toggled once; an unknown target throws after the hiding, and the
     * error goes to the dialog.
     */
    method TogglePage(target: string)
      requires Valid()
      modifies this
      ensures Valid() && Names(pages) == Names(old(pages))
      ensures match Find(old(pages), target)
        case Some(t) =>
          && pages == HideOthers(old(pages), target)[t := (target, !old(pages)[t].1)]
          && calls == old(calls) + HideCalls(old(pages), target) + [Toggle(target)]
          && errors == old(errors)
        case None =>
          && pages == HideOthers(old(pages), target)
          && calls == old(calls) + HideCalls(old(pages), target)
          && errors == old(errors) + ["TypeError: Cannot read properties of null (reading 'toggle')"]
    {
      var ps, hides, current := HideOtherPages(pages, target);
      SameNames(pages, ps);
      if current.None? {
        pages, calls := ps, calls + hides;
        errors := errors + ["TypeError: Cannot read properties of null (reading 'toggle')"];
        return;
      }
      SameNames(ps, ps[current.value := (target, !ps[current.value].1)]);
      pages := ps[current.value := (target, !ps[current.value].1)];
      calls := calls + hides + [Toggle(target)];
    }
  }

  /**
   * The first loop of `toggle`: the target is remembered and skipped, and every
   * other active page is hidden.
   */
  method HideOtherPages(pages: seq<(string, bool)>, target: string)
    returns (ps: seq<(string, bool)>, hides: seq<PageCall>, current: Option<nat>)
    requires DistinctNames(pages)
    ensures ps == HideOthers(pages, target) && hides == HideCalls(pages, target)
    ensures current == Find(pages, target)
  {
    ps, hides, current := pages, [], None;
    var k := 0;
    while k < |ps|
      invariant 0 <= k <= |pages| && ps == OthersHiddenUpTo(pages, target, k)
      invariant hides == HideCalls(pages[..k], target)
      invariant current == Find(pages[..k], target)
      decreases |ps| - k
    {
      HideCallsStep(pages, target, k);
      OthersHiddenUpToStep(pages, target, k);
      FindStep(pages, target, k);
      if ps[k].0 == target {
        current := Some(k);
        k := k + 1;
        continue;
      }
      if ps[k].1 {
        hides := hides + [Hide(ps[k].0)];
        ps := ps[k := (ps[k].0, false)];
      }
      k := k + 1;
    }
    OthersHiddenAll(pages, target);
  }

  /** With distinct names, the page `k` is found when it has the name, and otherwise what was found before stays. */
  lemma FindStep(pages: seq<(string, bool)>, target: string, k: nat)
    requires DistinctNames(pages) && k < |pages|
    ensures pages[k].0 == target ==> Find(pages[..k + 1], target) == Some(k)
    ensures pages[k].0 != target ==> Find(pages[..k + 1], target) == Find(pages[..k], target)
  {
    var before, after := pages[..k], pages[..k + 1];
    assert forall i :: 0 <= i < k ==> after[i] == before[i] == pages[i];
    if pages[k].0 == target {
      assert after[k].0 == target;
    } else {
      match Find(before, target)
      case None =>
      case Some(v) =>
        assert after[v].0 == target;
    }
  }

  /** The pages once that loop has passed the first `k` of them. */
  function OthersHiddenUpTo(pages: seq<(string, bool)>, target: string, k: nat): (r: seq<(string, bool)>)
    requires k <= |pages|
    ensures |r| == |pages|
    ensures forall i :: 0 <= i < |pages| ==> r[i] == if i < k && pages[i].0 != target then (pages[i].0, false) else pages[i]
  {
    seq(|pages|, i requires 0 <= i < |pages| => if i < k && pages[i].0 != target then (pages[i].0, false) else pages[i])
  }

  /** Page `k` is left alone when it is the target or already hidden, and hidden otherwise. */
  lemma OthersHiddenUpToStep(pages: seq<(string, bool)>, target: string, k: nat)
    requires k < |pages|
    ensures pages[k].0 == target ==> OthersHiddenUpTo(pages, target, k + 1) == OthersHiddenUpTo(pages, target, k)
    ensures pages[k].0 != target && !pages[k].1 ==> OthersHiddenUpTo(pages, target, k + 1) == OthersHiddenUpTo(pages, target, k)
    ensures pages[k].0 != target ==>
      OthersHiddenUpTo(pages, target, k + 1) == OthersHiddenUpTo(pages, target, k)[k := (pages[k].0, false)]
  {
  }

  /** Past every page, the loop has produced `HideOthers`. */
  lemma OthersHiddenAll(pages: seq<(string, bool)>, target: string)
    ensures OthersHiddenUpTo(pages, target, |pages|) == HideOthers(pages, target) && pages[..|pages|] == pages
  {
  }

  /** One page more adds its `hide` call when it is active and not the target. */
  lemma HideCallsStep(pages: seq<(string, bool)>, target: string, k: nat)
    requires k < |pages|
    ensures HideCalls(pages[..k + 1], target) ==
      HideCalls(pages[..k], target) + (if pages[k].0 != target && pages[k].1 then [Hide(pages[k].0)] else [])
  {
    assert pages[..k + 1][..k] == pages[..k];
  }

  /** After toggling a registered page, no other page is active. */
  lemma OnlyTargetActive(pages: seq<(string, bool)>, target: string, t: nat)
    requires DistinctNames(pages) && Find(pages, target) == Some(t)
    ensures var r := HideOthers(pages, target)[t := (target, !pages[t].1)];
      forall i :: 0 <= i < |r| && i != t ==> !r[i].1
  {
  }
}
