/** The city highlights kept across clicks, and the layer view that hands out highlight handles. */
module Highlights {
  import opened Features

  /** A request the city layer view received: highlight a feature, or remove a handle. */
  datatype Call = Highlighted(objectId: int) | Removed(handle: Handle)

  /** The city layer's view. Only its highlight service is modelled: every request is
      recorded in `calls`, in the order it arrives. */
  class CityLayerView {
    var calls: seq<Call>

    constructor ()
      ensures calls == []
    {
      calls := [];
    }

    /** `highlight(objectid)`: a fresh, not yet released handle for that feature. */
    method Highlight(objectId: int) returns (h: Handle)
      modifies this
      ensures fresh(h) && h.view == this && h.objectId == objectId && !h.released
      ensures calls == old(calls) + [Highlighted(objectId)]
    {
      h := new Handle(this, objectId);
      calls := calls + [Highlighted(objectId)];
    }
  }

  /** A releasable highlight handle for one feature of one layer view. */
  class Handle {
    const view: CityLayerView
    const objectId: int
    var released: bool

    constructor (view: CityLayerView, objectId: int)
      ensures this.view == view && this.objectId == objectId && !released
    {
      this.view := view;
      this.objectId := objectId;
      released := false;
    }

    /** `remove()`: releases the highlight; calling it again is allowed and is recorded again. */
    method Remove()
      modifies this, view
      ensures released
      ensures view.calls == old(view.calls) + [Removed(this)]
    {
      released := true;
      view.calls := view.calls + [Removed(this)];
    }
  }

  /** The handles held in a list, skipping null entries. */
  function Held(hs: seq<Handle?>): set<Handle>
  {
    set h: Handle | h in hs
  }

  /** The remove requests a `forEach` over `hs` makes: one per non-null entry, in list order. */
  function Removals(hs: seq<Handle?>): (r: seq<Call>)
  {
    if hs == [] then []
    else Removals(hs[..|hs| - 1]) + (if hs[|hs| - 1] == null then [] else [Removed(hs[|hs| - 1])])
  }

  /** The highlight requests made for `features`, one per feature in result order. */
  function Acquisitions(features: seq<Feature>): (r: seq<Call>)
    ensures |r| == |features|
    ensures forall i :: 0 <= i < |features| ==> r[i] == Highlighted(features[i].attributes.objectid)
  {
    seq(|features|, i requires 0 <= i < |features| => Highlighted(features[i].attributes.objectid))
  }

  /** The state the click workflow keeps between clicks: the list of city highlight
      handles, which persists and is never emptied, and the city layer view once known. */
  class CityHighlights {
    var highlightCities: seq<Handle?>
    var cityLayerView: CityLayerView?

    /** Every handle in the list was issued by the current city layer view. */
    ghost predicate Valid()
      reads this
    {
      forall h :: h in highlightCities && h != null ==> cityLayerView != null && h.view == cityLayerView
    }

    constructor ()
      ensures Valid() && highlightCities == [] && cityLayerView == null
    {
      highlightCities := [];
      cityLayerView := null;
    }

    /** The city layer view becomes available (it resolves once). */
    method SetCityLayerView(layerView: CityLayerView)
      requires Valid() && cityLayerView == null
      modifies this
      ensures Valid() && cityLayerView == layerView && highlightCities == old(highlightCities)
    {
      cityLayerView := layerView;
    }

    /** The completion callback of the city query. It first calls `remove()` on every
        non-null handle in the list, then asks for one new highlight per returned feature,
        keyed by its `objectid`, and appends it. The list is never truncated, so handles
        released before are released again. Without a city layer view the first
        `highlight` call throws (`completed` is false) and nothing is appended. */
    method OnQueryResult(features: seq<Feature>) returns (completed: bool)
      requires Valid()
      modifies this, cityLayerView, Held(highlightCities)
      ensures Valid() && cityLayerView == old(cityLayerView)
      ensures completed <==> features == [] || cityLayerView != null
      ensures cityLayerView != null ==>
        cityLayerView.calls == old(cityLayerView.calls) + Removals(old(highlightCities)) + Acquisitions(features)
      ensures completed ==> |highlightCities| == |old(highlightCities)| + |features|
      ensures !completed ==> highlightCities == old(highlightCities)
      ensures highlightCities[..|old(highlightCities)|] == old(highlightCities)
      ensures forall h :: h in old(highlightCities) && h != null ==> h.released
      ensures forall k :: |old(highlightCities)| <= k < |highlightCities| ==>
        var h := highlightCities[k];
        h != null && fresh(h) && !h.released && h.view == cityLayerView
        && h.objectId == features[k - |old(highlightCities)|].attributes.objectid
      ensures forall k, l :: |old(highlightCities)| <= k < l < |highlightCities| ==> highlightCities[k] != highlightCities[l]
    {
      ReleaseAll();
      completed := AppendHighlights(features);
    }

    /** The first `forEach`: `remove()` on every non-null entry, in list order. */
    method ReleaseAll()
      requires Valid()
      modifies cityLayerView, Held(highlightCities)
      ensures cityLayerView != null ==> cityLayerView.calls == old(cityLayerView.calls) + Removals(highlightCities)
      ensures forall h :: h in highlightCities && h != null ==> h.released
    {
      var i := 0;
      while i < |highlightCities|
        invariant 0 <= i <= |highlightCities|
        invariant cityLayerView != null ==> cityLayerView.calls == old(cityLayerView.calls) + Removals(highlightCities[..i])
        invariant forall h :: h in highlightCities[..i] && h != null ==> h.released
      {
        var h := highlightCities[i];
        if h != null {
          h.Remove();
        }
        assert highlightCities[..i + 1][..i] == highlightCities[..i];
        i := i + 1;
      }
      assert highlightCities[..i] == highlightCities;
    }

    /** The second `forEach`: one new highlight per feature, appended in result order. */
    method AppendHighlights(features: seq<Feature>) returns (completed: bool)
      requires Valid()
      modifies this, cityLayerView
      ensures Valid() && cityLayerView == old(cityLayerView)
      ensures completed <==> features == [] || cityLayerView != null
      ensures cityLayerView != null ==> cityLayerView.calls == old(cityLayerView.calls) + Acquisitions(features)
      ensures completed ==> |highlightCities| == |old(highlightCities)| + |features|
      ensures !completed ==> highlightCities == old(highlightCities)
      ensures highlightCities[..|old(highlightCities)|] == old(highlightCities)
      ensures forall k :: |old(highlightCities)| <= k < |highlightCities| ==>
        var h := highlightCities[k];
        h != null && fresh(h) && !h.released && h.view == cityLayerView
        && h.objectId == features[k - |old(highlightCities)|].attributes.objectid
      ensures forall k, l :: |old(highlightCities)| <= k < l < |highlightCities| ==> highlightCities[k] != highlightCities[l]
    {
      ghost var start := |highlightCities|;
      var j := 0;
      while j < |features|
        invariant 0 <= j <= |features|
        invariant cityLayerView == old(cityLayerView)
        invariant j > 0 ==> cityLayerView != null
        invariant |highlightCities| == start + j && highlightCities[..start] == old(highlightCities)
        invariant cityLayerView != null ==> cityLayerView.calls == old(cityLayerView.calls) + Acquisitions(features[..j])
        invariant forall k :: start <= k < |highlightCities| ==> highlightCities[k] != null
        invariant forall k :: start <= k < |highlightCities| ==> fresh(highlightCities[k])
        invariant forall k :: start <= k < |highlightCities| ==> !highlightCities[k].released
        invariant forall k :: start <= k < |highlightCities| ==> highlightCities[k].view == cityLayerView
        invariant forall k :: start <= k < |highlightCities| ==> highlightCities[k].objectId == features[k - start].attributes.objectid
        invariant forall k, l :: start <= k < l < |highlightCities| ==> highlightCities[k] != highlightCities[l]
        invariant Valid()
      {
        if cityLayerView == null {
          return false;
        }
        var h := cityLayerView.Highlight(features[j].attributes.objectid);
        ghost var prev := highlightCities;
        highlightCities := highlightCities + [h];
        assert forall k :: 0 <= k < start + j ==> highlightCities[k] == prev[k];
        assert Acquisitions(features[..j + 1]) == Acquisitions(features[..j]) + [Highlighted(features[j].attributes.objectid)];
        j := j + 1;
      }
      assert features[..j] == features;
      return true;
    }
  }

  /** Removing over a concatenated list is removing over each part in turn. */
  lemma {:induction false} RemovalsAppend(a: seq<Handle?>, b: seq<Handle?>)
    ensures Removals(a + b) == Removals(a) + Removals(b)
    decreases |b|
  {
    if b != [] {
      var b' := b[..|b| - 1];
      assert (a + b)[..|a + b| - 1] == a + b';
      assert (a + b)[|a + b| - 1] == b[|b| - 1];
      RemovalsAppend(a, b');
    } else {
      assert a + b == a;
    }
  }

  /** Each occurrence of a handle in the list is removed exactly once per callback, and
      nothing else is removed. */
  lemma {:induction false} RemovalsCount(hs: seq<Handle?>, h: Handle)
    ensures multiset(Removals(hs))[Removed(h)] == multiset(hs)[h]
    ensures forall c :: c in Removals(hs) ==> c.Removed? && c.handle in hs
    decreases |hs|
  {
    if hs != [] {
      var front := hs[..|hs| - 1];
      assert hs == front + [hs[|hs| - 1]];
      RemovalsCount(front, h);
    }
  }

  /** The list only grows, so a handle appended by one callback is removed again by
      every later one: it is removed by the next callback whatever that callback appends. */
  lemma ReleasedAgain(before: seq<Handle?>, added: seq<Handle?>, later: seq<Handle?>, h: Handle)
    requires h in added
    ensures Removed(h) in Removals(before + added)
    ensures Removed(h) in Removals(before + added + later)
  {
    RemovalsCount(before + added, h);
    RemovalsCount(before + added + later, h);
    assert h in before + added && h in before + added + later;
  }
}
