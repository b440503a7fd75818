/**
 * The server's figure store (FiguresBoxImpl.java): an id-keyed list of figures and the
 * callbacks of the connected clients, which are told about every added or updated figure.
 */
module Server {
  import opened Drawing
  import opened FigureLists

  /** A client's remote callback, known to the server only by its handle. */
  datatype Endpoint = Endpoint(handle: nat)

  /**
   * One `edit(figure)` call made on a callback; `delivered` is false when the call threw a
   * RemoteException, which the server prints and ignores.
   */
  datatype Delivery = Delivery(to: Endpoint, figure: Figure, delivered: bool)

  /** The calls one `forEach` over the callbacks makes, in registration order. */
  function Broadcast(callbacks: seq<Endpoint>, f: Figure, failing: set<Endpoint>): seq<Delivery>
  {
    if callbacks == [] then []
    else
      var c := callbacks[|callbacks| - 1];
      Broadcast(callbacks[..|callbacks| - 1], f, failing) + [Delivery(c, f, c !in failing)]
  }

  /**
   * A broadcast calls every callback exactly once, in registration order, with the same
   * figure; a failing callback does not prevent the calls after it.
   */
  lemma {:induction false} BroadcastCallsEach(callbacks: seq<Endpoint>, f: Figure, failing: set<Endpoint>)
    ensures |Broadcast(callbacks, f, failing)| == |callbacks|
    ensures forall i :: 0 <= i < |callbacks| ==>
      Broadcast(callbacks, f, failing)[i] == Delivery(callbacks[i], f, callbacks[i] !in failing)
  {
    if callbacks != [] {
      BroadcastCallsEach(callbacks[..|callbacks| - 1], f, failing);
    }
  }

  /** The store after addFigure: the figure is appended unless its id is already present. */
  function AddIfNew(s: seq<Figure>, f: Figure): seq<Figure>
  {
    if HasId(s, f.id) then s else s + [f]
  }

  /**
   * A new id appends the figure after the unchanged earlier elements; a known id leaves
   * the store as it is; and distinct ids stay distinct.
   */
  lemma AddIfNewSpec(s: seq<Figure>, f: Figure)
    ensures !HasId(s, f.id) ==> AddIfNew(s, f) == s + [f]
    ensures HasId(s, f.id) ==> AddIfNew(s, f) == s
    ensures DistinctIds(s) ==> DistinctIds(AddIfNew(s, f))
    ensures HasId(AddIfNew(s, f), f.id)
  {
    if !HasId(s, f.id) {
      var r := s + [f];
      assert r[|s|].id == f.id;
    }
  }

  /**
   * What updateFigure is evidently meant to do to the store: every element with the figure's
   * id is replaced by the figure.
   */
  function ReplaceById(s: seq<Figure>, f: Figure): (r: seq<Figure>)
    ensures |r| == |s|
    ensures forall i :: 0 <= i < |s| ==> r[i] == if s[i].id == f.id then f else s[i]
  {
    seq(|s|, i requires 0 <= i < |s| => if s[i].id == f.id then f else s[i])
  }

  /**
   * The replacement keeps each position's id, hence distinct ids, and the figure is in the
   * result exactly when its id was in the store.
   */
  lemma ReplaceByIdSpec(s: seq<Figure>, f: Figure)
    ensures forall i :: 0 <= i < |s| ==> ReplaceById(s, f)[i].id == s[i].id
    ensures DistinctIds(s) ==> DistinctIds(ReplaceById(s, f))
    ensures f in ReplaceById(s, f) <==> HasId(s, f.id)
  {
    var r := ReplaceById(s, f);
    if HasId(s, f.id) {
      var i :| 0 <= i < |s| && s[i].id == f.id;
      assert r[i] == f;
    }
  }

  /**
   * updateFigure as written leaves the store unchanged, which is not the intended store as
   * soon as it holds a different object with the figure's id.
   */
  lemma UpdateLeavesStaleFigure(s: seq<Figure>, f: Figure, i: nat)
    requires i < |s| && s[i].id == f.id && s[i] != f
    ensures s != ReplaceById(s, f)
  {
    assert ReplaceById(s, f)[i] == f;
  }

  class FiguresBoxImpl {
    /** the store, in insertion order */
    const figures: Figures
    var callbacks: seq<Endpoint>
    /** every callback call made so far, oldest first */
    var deliveries: seq<Delivery>

    /** A fresh box: an empty store and no callbacks. */
    constructor ()
      ensures fresh(figures) && figures.elems == [] && figures.current == null
      ensures callbacks == [] && deliveries == []
    {
      figures := new Figures();
      callbacks := [];
      deliveries := [];
    }

    /**
     * addFigure: a linear scan tells whether the id is already stored. A new figure is
     * appended and every callback, in registration order and the caller's own included, is
     * asked to edit it; `failing` are the callbacks whose call throws. A known id changes
     * nothing and calls nobody.
     */
    method AddFigure(figure: Figure, failing: set<Endpoint>)
      modifies figures, this`deliveries
      ensures figures.elems == AddIfNew(old(figures.elems), figure)
      ensures figures.current == old(figures.current) && callbacks == old(callbacks)
      ensures deliveries == old(deliveries) +
        if HasId(old(figures.elems), figure.id) then [] else Broadcast(callbacks, figure, failing)
      ensures DistinctIds(old(figures.elems)) ==> DistinctIds(figures.elems)
    {
      var exist := false;
      var i := 0;
      while i < |figures.elems|
        invariant 0 <= i <= |figures.elems|
        invariant exist <==> HasId(figures.elems[..i], figure.id)
      {
        if figures.elems[i].id == figure.id {
          exist := true;
        }
        assert figures.elems[..i + 1] == figures.elems[..i] + [figures.elems[i]];
        i := i + 1;
      }
      assert figures.elems[..i] == figures.elems;
      AddIfNewSpec(figures.elems, figure);
      if !exist {
        figures.Add(figure);
        NotifyAll(figure, failing);
      }
    }

    /** The `forEach` over the callbacks: one `edit` call each, exceptions swallowed. */
    method NotifyAll(figure: Figure, failing: set<Endpoint>)
      modifies this`deliveries
      ensures deliveries == old(deliveries) + Broadcast(callbacks, figure, failing)
    {
      var i := 0;
      while i < |callbacks|
        invariant 0 <= i <= |callbacks|
        invariant deliveries == old(deliveries) + Broadcast(callbacks[..i], figure, failing)
      {
        assert callbacks[..i + 1][..i] == callbacks[..i];
        deliveries := deliveries + [Delivery(callbacks[i], figure, callbacks[i] !in failing)];
        i := i + 1;
      }
      assert callbacks[..i] == callbacks;
    }

    /**
     * removeFigure: removes the first stored element that is the same object as the
     * argument (Figure has no `equals`), returns the argument and calls no callback.
     */
    method RemoveFigure(figure: Figure) returns (r: Figure)
      modifies figures
      ensures r == figure
      ensures figures.elems == RemoveFirst(old(figures.elems), figure)
      ensures figures.current == old(figures.current)
      ensures DistinctIds(old(figures.elems)) ==> DistinctIds(figures.elems)
    {
      var _ := figures.Remove(figure);
      if DistinctIds(old(figures.elems)) {
        RemoveFirstKeepsDistinct(old(figures.elems), figure);
      }
      r := figure;
    }

    /** getFigures: the store itself, in insertion order. */
    method GetFigures() returns (r: Figures)
      ensures r == figures && r.elems == figures.elems
    {
      r := figures;
    }

    /** registerCallback: appends the callback; the store is untouched. */
    method RegisterCallback(c: Endpoint)
      modifies this`callbacks
      ensures callbacks == old(callbacks) + [c]
    {
      callbacks := callbacks + [c];
    }

    /**
     * updateFigure as written: the scan only rebinds its lambda parameter, so the store is
     * left as it is; then every callback is asked to edit the figure.
     */
    method UpdateFigure(figure: Figure, failing: set<Endpoint>)
      modifies this`deliveries
      ensures figures.elems == old(figures.elems) && callbacks == old(callbacks)
      ensures deliveries == old(deliveries) + Broadcast(callbacks, figure, failing)
    {
      var i := 0;
      while i < |figures.elems| {
        var f := figures.elems[i];
        if f.id == figure.id {
          f := figure;
        }
        i := i + 1;
      }
      NotifyAll(figure, failing);
    }

    /**
     * The update updateFigure is evidently meant to make: each stored element with the
     * figure's id is replaced in place (`figures.set(i, figure)`), then every callback is
     * asked to edit the figure.
     */
    method ReplaceFigure(figure: Figure, failing: set<Endpoint>)
      modifies figures, this`deliveries
      ensures figures.elems == ReplaceById(old(figures.elems), figure)
      ensures figures.current == old(figures.current) && callbacks == old(callbacks)
      ensures deliveries == old(deliveries) + Broadcast(callbacks, figure, failing)
      ensures DistinctIds(old(figures.elems)) ==> DistinctIds(figures.elems)
    {
      ghost var before := figures.elems;
      var i := 0;
      while i < |figures.elems|
        invariant |figures.elems| == |before| && 0 <= i <= |before|
        invariant figures.current == old(figures.current) && deliveries == old(deliveries)
        invariant forall j :: 0 <= j < i ==> figures.elems[j] == ReplaceById(before, figure)[j]
        invariant forall j :: i <= j < |before| ==> figures.elems[j] == before[j]
      {
        if figures.elems[i].id == figure.id {
          figures.elems := figures.elems[i := figure];
        }
        i := i + 1;
      }
      ReplaceByIdSpec(before, figure);
      NotifyAll(figure, failing);
    }
  }
}
