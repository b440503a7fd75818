/**
 * The client's mirror of the server's store (CallbackImpl.java): each figure the server
 * broadcasts replaces the canvas's figure with the same id, or is appended when none has it.
 */
module Mirror {
  import opened Drawing
  import opened FigureLists
  import opened Canvas

  /**
   * The list after `edit(f)`: the last element with f's id (the object the scan remembers)
   * is removed by identity, and f is appended. The edited figure ends up last, and the list
   * grows by one exactly when its id is new.
   */
  function MirrorEdit(s: seq<Figure>, f: Figure): (r: seq<Figure>)
    ensures |r| > 0 && r[|r| - 1] == f
    ensures !HasId(s, f.id) ==> r == s + [f]
    ensures HasId(s, f.id) ==> |r| == |s|
  {
    var k := LastIndexOfId(s, f.id);
    if k < 0 then s + [f]
    else
      RemoveFirstMultiset(s, s[k]);
      RemoveFirst(s, s[k]) + [f]
  }

  /** Elements with another id stay, in their relative order. */
  lemma {:induction false} MirrorEditKeepsOthers(s: seq<Figure>, f: Figure)
    ensures WithoutId(MirrorEdit(s, f), f.id) == WithoutId(s, f.id)
  {
    var k := LastIndexOfId(s, f.id);
    if k < 0 {
      AppendKeepsOthers(s, f, f.id);
    } else {
      RemoveFirstKeepsOthers(s, s[k], f.id);
      AppendKeepsOthers(RemoveFirst(s, s[k]), f, f.id);
    }
  }

  /** With distinct ids, the element replaced is exactly the one at the id's position. */
  lemma {:induction false} MirrorEditReplaces(s: seq<Figure>, f: Figure)
    requires DistinctIds(s) && HasId(s, f.id)
    ensures var k := LastIndexOfId(s, f.id);
      MirrorEdit(s, f) == s[..k] + s[k + 1..] + [f]
  {
    var k := LastIndexOfId(s, f.id);
    var i := FirstIndex(s, s[k]);
    assert s[i].id == s[k].id;
  }

  /** Appending a figure whose id is new keeps ids distinct and makes it the only one with its id. */
  lemma {:induction false} AppendNewId(s: seq<Figure>, f: Figure)
    requires DistinctIds(s) && !HasId(s, f.id)
    ensures DistinctIds(s + [f])
    ensures forall i :: 0 <= i < |s| + 1 && (s + [f])[i].id == f.id ==> i == |s|
  {
    var r := s + [f];
    forall i | 0 <= i < |s|
      ensures r[i].id != f.id
    {
      assert r[i] == s[i];
    }
  }

  /** With distinct ids, removing the figure with f's id leaves no figure with that id. */
  lemma {:induction false} RemoveIdLeavesNone(s: seq<Figure>, f: Figure)
    requires DistinctIds(s) && HasId(s, f.id)
    ensures var k := LastIndexOfId(s, f.id);
      DistinctIds(RemoveFirst(s, s[k])) && !HasId(RemoveFirst(s, s[k]), f.id)
  {
    var k := LastIndexOfId(s, f.id);
    var i := FirstIndex(s, s[k]);
    assert s[i].id == s[k].id;
    var rest := RemoveFirst(s, s[k]);
    RemoveFirstKeepsDistinct(s, s[k]);
    CutAt(s, k);
    forall j | 0 <= j < |rest|
      ensures rest[j].id != f.id
    {
      if j < k {
        assert rest[j] == s[j];
      } else {
        assert rest[j] == s[j + 1];
      }
    }
  }

  /** Distinct ids stay distinct, and afterwards the edited figure is the only one with its id. */
  lemma {:induction false} MirrorEditKeepsDistinct(s: seq<Figure>, f: Figure)
    requires DistinctIds(s)
    ensures var r := MirrorEdit(s, f);
      && DistinctIds(r)
      && forall i :: 0 <= i < |r| && r[i].id == f.id ==> i == |r| - 1
  {
    var k := LastIndexOfId(s, f.id);
    if k < 0 {
      AppendNewId(s, f);
    } else {
      RemoveIdLeavesNone(s, f);
      AppendNewId(RemoveFirst(s, s[k]), f);
    }
  }

  class CallbackImpl {
    /** the canvas of the client this callback belongs to */
    const canvas: FiguresCanvas

    constructor (canvas: FiguresCanvas)
      ensures this.canvas == canvas
    {
      this.canvas := canvas;
    }

    /**
     * edit: the figure loses its selection flag, then replaces the last figure of the
     * canvas with its id, or is appended when there is none.
     */
    method Edit(figure: Figure)
      modifies canvas.figures, figure`selected
      ensures canvas.figures.elems == MirrorEdit(old(canvas.figures.elems), figure)
      ensures canvas.figures.current == old(canvas.figures.current)
      ensures !figure.selected
    {
      var figures := canvas.figures;
      var exist := false;
      var toRemove: Figure? := null;
      var i := 0;
      while i < |figures.elems|
        invariant 0 <= i <= |figures.elems|
        invariant exist <==> HasId(figures.elems[..i], figure.id)
        invariant exist ==> toRemove == figures.elems[LastIndexOfId(figures.elems[..i], figure.id)]
      {
        assert figures.elems[..i + 1][..i] == figures.elems[..i];
        if figures.elems[i].id == figure.id {
          exist := true;
          toRemove := figures.elems[i];
        }
        i := i + 1;
      }
      assert figures.elems[..i] == figures.elems;
      figure.SetSelected(false);
      if !exist {
        figures.Add(figure);
      } else {
        var _ := figures.Remove(toRemove);
        figures.Add(figure);
      }
    }
  }
}
