/**
 * Lists of figures keyed by id (Figures.java is an ArrayList<Figure>): the list functions
 * the store and the mirror are specified with, and the client's list with its figure in
 * progress.
 */
module FigureLists {
  import opened Geometry
  import opened Shapes
  import opened Drawing

  /** Some element carries the id. */
  predicate HasId(s: seq<Figure>, id: int)
  {
    exists i :: 0 <= i < |s| && s[i].id == id
  }

  /** No two elements carry the same id. */
  predicate DistinctIds(s: seq<Figure>)
  {
    forall i, j :: 0 <= i < j < |s| ==> s[i].id != s[j].id
  }

  /** The figures whose id differs from `id`, in list order. */
  function WithoutId(s: seq<Figure>, id: int): (r: seq<Figure>)
    ensures forall f :: f in r ==> f in s && f.id != id
  {
    if s == [] then []
    else if s[0].id == id then WithoutId(s[1..], id)
    else [s[0]] + WithoutId(s[1..], id)
  }

  /** The position of the first occurrence of the object `x`. */
  function FirstIndex(s: seq<Figure>, x: Figure): (i: nat)
    requires x in s
    ensures i < |s| && s[i] == x && x !in s[..i]
  {
    if s[0] == x then 0 else 1 + FirstIndex(s[1..], x)
  }

  /**
   * ArrayList.remove(Object) for a class without `equals`: the first element that is the
   * same object as `x` is removed; without one the list is unchanged.
   */
  function RemoveFirst(s: seq<Figure>, x: Figure): (r: seq<Figure>)
    ensures x !in s ==> r == s
    ensures x in s ==> r == s[..FirstIndex(s, x)] + s[FirstIndex(s, x) + 1..]
  {
    if s == [] then []
    else if s[0] == x then s[1..]
    else
      var r := RemoveFirst(s[1..], x);
      assert x in s ==> x in s[1..] && FirstIndex(s, x) == 1 + FirstIndex(s[1..], x);
      assert x in s ==> var j := FirstIndex(s[1..], x);
        && s[..j + 1] == [s[0]] + s[1..][..j]
        && s[j + 2..] == s[1..][j + 1..];
      [s[0]] + r
  }

  /** Removal takes exactly one occurrence of `x` away, when there is one. */
  lemma {:induction false} RemoveFirstMultiset(s: seq<Figure>, x: Figure)
    ensures multiset(RemoveFirst(s, x)) == multiset(s) - multiset{x}
    ensures |RemoveFirst(s, x)| == if x in s then |s| - 1 else |s|
  {
    if x in s {
      var i := FirstIndex(s, x);
      var l, m := s[..i], s[i + 1..];
      assert s == l + [x] + m;
      calc {
        multiset(s) - multiset{x};
        multiset(l) + multiset{x} + multiset(m) - multiset{x};
        multiset(l) + multiset(m);
        multiset(l + m);
      }
    } else {
      assert multiset(s)[x] == 0;
    }
  }

  /** Where the elements of a list with position i cut out come from. */
  lemma CutAt(s: seq<Figure>, i: nat)
    requires i < |s|
    ensures var r := s[..i] + s[i + 1..];
      && |r| == |s| - 1
      && (forall j :: 0 <= j < i ==> r[j] == s[j])
      && (forall j :: i <= j < |r| ==> r[j] == s[j + 1])
  {
  }

  /** Removing an element keeps the ids of the others distinct. */
  lemma {:induction false} RemoveFirstKeepsDistinct(s: seq<Figure>, x: Figure)
    requires DistinctIds(s)
    ensures DistinctIds(RemoveFirst(s, x))
  {
    if x in s {
      var i := FirstIndex(s, x);
      var r := RemoveFirst(s, x);
      CutAt(s, i);
      forall a, b | 0 <= a < b < |r| ensures r[a].id != r[b].id {
        if b < i {
          assert r[a] == s[a] && r[b] == s[b];
        } else if a < i {
          assert r[a] == s[a] && r[b] == s[b + 1];
        } else {
          assert r[a] == s[a + 1] && r[b] == s[b + 1];
        }
      }
    }
  }

  /** Removing a figure with id `id` leaves the figures with other ids as they were. */
  lemma {:induction false} RemoveFirstKeepsOthers(s: seq<Figure>, x: Figure, id: int)
    requires x.id == id
    ensures WithoutId(RemoveFirst(s, x), id) == WithoutId(s, id)
  {
    if s != [] && s[0] != x {
      RemoveFirstKeepsOthers(s[1..], x, id);
      assert RemoveFirst(s, x) == [s[0]] + RemoveFirst(s[1..], x);
      assert ([s[0]] + RemoveFirst(s[1..], x))[1..] == RemoveFirst(s[1..], x);
    }
  }

  /** Appending a figure with id `id` leaves the figures with other ids as they were. */
  lemma {:induction false} AppendKeepsOthers(s: seq<Figure>, f: Figure, id: int)
    requires f.id == id
    ensures WithoutId(s + [f], id) == WithoutId(s, id)
  {
    if s == [] {
      assert [f][1..] == [];
    } else {
      AppendKeepsOthers(s[1..], f, id);
      assert (s + [f])[1..] == s[1..] + [f];
    }
  }

  /**
   * The position of the last element carrying `id`, or -1 if there is none: the `toRemove`
   * the mirror's scan ends with.
   */
  function LastIndexOfId(s: seq<Figure>, id: int): (k: int)
    ensures -1 <= k < |s|
    ensures k == -1 <==> !HasId(s, id)
    ensures k >= 0 ==> s[k].id == id && forall j :: k < j < |s| ==> s[j].id != id
  {
    if s == [] then -1
    else if s[|s| - 1].id == id then |s| - 1
    else LastIndexOfId(s[..|s| - 1], id)
  }

  /** The last figure of `s` (the one drawn on top) whose hit box holds the point, or null. */
  function FrontMost(s: seq<Figure>, px: real, py: real): (r: Figure?)
    reads set f | f in s :: f.rect
    ensures r != null ==> r in s && r.IsInside(px, py)
  {
    if |s| == 0 then null
    else if s[|s| - 1].IsInside(px, py) then s[|s| - 1]
    else FrontMost(s[..|s| - 1], px, py)
  }

  /** FrontMost finds nothing exactly when no hit box holds the point. */
  lemma {:induction false} FrontMostNone(s: seq<Figure>, px: real, py: real)
    ensures FrontMost(s, px, py) == null <==> forall j :: 0 <= j < |s| ==> !s[j].IsInside(px, py)
  {
    if |s| > 0 && !s[|s| - 1].IsInside(px, py) {
      var t := s[..|s| - 1];
      FrontMostNone(t, px, py);
      assert forall j :: 0 <= j < |t| ==> t[j] == s[j];
    }
  }

  /** What FrontMost finds sits at an index past which no hit box holds the point. */
  lemma {:induction false} FrontMostOnTop(s: seq<Figure>, px: real, py: real)
    requires FrontMost(s, px, py) != null
    ensures
      exists i :: 0 <= i < |s| && s[i] == FrontMost(s, px, py) &&
        forall j :: i < j < |s| ==> !s[j].IsInside(px, py)
  {
    if s[|s| - 1].IsInside(px, py) {
      assert s[|s| - 1] == FrontMost(s, px, py);
    } else {
      var t := s[..|s| - 1];
      FrontMostOnTop(t, px, py);
      var i :| 0 <= i < |t| && t[i] == FrontMost(t, px, py) &&
        forall j :: i < j < |t| ==> !t[j].IsInside(px, py);
      assert s[i] == FrontMost(s, px, py);
      assert forall j :: i < j < |s| ==> !s[j].IsInside(px, py) by {
        assert forall j :: 0 <= j < |t| ==> t[j] == s[j];
      }
    }
  }

  /** The list with its figure in progress (Figures.java). */
  class Figures {
    /** the figures, back to front */
    var elems: seq<Figure>
    /** the figure currently drawn, not yet in the list */
    var current: Figure?

    constructor ()
      ensures elems == [] && current == null
    {
      elems := [];
      current := null;
    }

    /** ArrayList.add: appends. */
    method Add(f: Figure)
      modifies this
      ensures elems == old(elems) + [f] && current == old(current)
    {
      elems := elems + [f];
    }

    /** ArrayList.remove(Object): removes the first element that is the same object. */
    method Remove(f: Figure) returns (found: bool)
      modifies this
      ensures found == (f in old(elems))
      ensures elems == RemoveFirst(old(elems), f) && current == old(current)
    {
      found := f in elems;
      elems := RemoveFirst(elems, f);
    }

    /** createFigure: starts drawing a new, empty figure at (x, y); the list is unchanged. */
    method CreateFigure(counter: IdCounter, shape: Shape, color: Color, x: real, y: real)
      modifies this, counter
      ensures elems == old(elems)
      ensures current != null && fresh(current) && fresh(current.rect)
      ensures current.id == NextId(old(counter.last)) && counter.last == current.id
      ensures current.shape == shape && current.color == color && !current.selected
      ensures current.rect.Value() == Box(x, y, 0.0, 0.0) && current.IsEmpty()
    {
      current := new Figure(counter, shape, color, x, y);
    }

    /** resizeCurrentFigure: sets the width, then the height, of the figure in progress. */
    method ResizeCurrentFigure(w: real, h: real)
      modifies if current != null then {current.rect} else {}
      ensures current != null ==>
        current.rect.Value() == current.shape.WithHeight(current.shape.WithWidth(old(current.rect.Value()), w), h)
    {
      if current != null {
        current.SetWidth(w);
        current.SetHeight(h);
      }
    }

    /**
     * addCurrentFigure: a non-empty figure in progress is normalised, appended and returned;
     * otherwise nothing is added and the result is null. Either way no figure is in progress
     * afterwards.
     */
    method AddCurrentFigure() returns (r: Figure?)
      modifies this, if current != null then {current.rect} else {}
      ensures current == null
      ensures old(current) == null || old(current.IsEmpty()) ==> r == null && elems == old(elems)
      ensures old(current) != null && !old(current.IsEmpty()) ==>
        && r == old(current)
        && elems == old(elems) + [r]
        && r.rect.Value() == MakeRectangle(old(r.rect.x), old(r.rect.y), old(r.rect.width), old(r.rect.height))
    {
      r := null;
      if current != null && !current.IsEmpty() {
        r := current;
        r.Update();
        Add(r);
      }
      current := null;
    }

    /**
     * updateCurrentFigure: a non-empty figure in progress is normalised and returned,
     * without being added; the list never changes and no figure is in progress afterwards.
     */
    method UpdateCurrentFigure() returns (r: Figure?)
      modifies this, if current != null then {current.rect} else {}
      ensures current == null && elems == old(elems)
      ensures old(current) == null || old(current.IsEmpty()) ==> r == null
      ensures old(current) != null && !old(current.IsEmpty()) ==>
        && r == old(current)
        && r.rect.Value() == MakeRectangle(old(r.rect.x), old(r.rect.y), old(r.rect.width), old(r.rect.height))
    {
      r := null;
      if current != null && !current.IsEmpty() {
        r := current;
        r.Update();
      }
      current := null;
    }

    /** getFigureAt: the front-most figure whose hit box holds the point, or null. */
    method GetFigureAt(px: real, py: real) returns (r: Figure?)
      ensures r == FrontMost(elems, px, py)
    {
      var i := |elems| - 1;
      assert elems[..i + 1] == elems;
      while i >= 0
        invariant -1 <= i < |elems|
        invariant FrontMost(elems, px, py) == FrontMost(elems[..i + 1], px, py)
      {
        if elems[i].IsInside(px, py) {
          return elems[i];
        }
        assert elems[..i + 1][..i] == elems[..i];
        i := i - 1;
      }
      return null;
    }
  }
}
