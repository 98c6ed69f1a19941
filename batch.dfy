/**
 * Both conversions of the iCalendar worker walk a list and, for each item,
 * either add one result, pass over the item, or stop on an exception that
 * escapes the whole request. `Gather` is that walk.
 */
module Batch {
  import opened Optional

  /** What one item contributes. */
  datatype Outcome<+T> = Aborted | Skipped | Emitted(value: T)

  /** `f` applied to each item, in order. */
  function MapSeq<A, B>(f: A -> B, s: seq<A>): (r: seq<B>)
    ensures |r| == |s| && forall k :: 0 <= k < |s| ==> r[k] == f(s[k])
  {
    seq(|s|, k requires 0 <= k < |s| => f(s[k]))
  }

  lemma MapSeqAppend<A, B>(f: A -> B, a: seq<A>, b: seq<A>)
    ensures MapSeq(f, a + b) == MapSeq(f, a) + MapSeq(f, b)
  {
  }

  /** The items `keep` accepts, in order. */
  function Filter<A>(keep: A -> bool, s: seq<A>): (r: seq<A>)
    ensures |r| <= |s|
    ensures forall x :: x in r ==> keep(x) && x in s
  {
    if s == [] then []
    else if keep(s[|s| - 1]) then Filter(keep, s[..|s| - 1]) + [s[|s| - 1]]
    else Filter(keep, s[..|s| - 1])
  }

  /** The results of the items in order, or `None` when any item aborts. */
  function Gather<T>(os: seq<Outcome<T>>): Option<seq<T>>
  {
    if os == [] then Some([])
    else
      var done := Gather(os[..|os| - 1]);
      match os[|os| - 1]
      case Aborted => None
      case Skipped => done
      case Emitted(x) => if done.None? then None else Some(done.value + [x])
  }

  /** The results of the emitting items, in order. */
  function Emissions<T>(os: seq<Outcome<T>>): (r: seq<T>)
    ensures |r| <= |os|
  {
    if os == [] then []
    else
      var rest := Emissions(os[..|os| - 1]);
      match os[|os| - 1]
      case Emitted(x) => rest + [x]
      case _ => rest
  }

  /** The walk gets through exactly when no item aborts, and then yields the emitted results in order. */
  lemma {:induction false} GatherSpec<T>(os: seq<Outcome<T>>)
    ensures Gather(os).Some? <==> forall k :: 0 <= k < |os| ==> !os[k].Aborted?
    ensures Gather(os).Some? ==> Gather(os).value == Emissions(os)
  {
    if os != [] {
      var init := os[..|os| - 1];
      GatherSpec(init);
      assert forall k :: 0 <= k < |init| ==> init[k] == os[k];
    }
  }

  /** When every item emits, the walk yields one result per item, at the same position. */
  lemma {:induction false} GatherAllEmitted<T>(os: seq<Outcome<T>>)
    requires forall k :: 0 <= k < |os| ==> os[k].Emitted?
    ensures Gather(os).Some? && |Gather(os).value| == |os|
    ensures forall k :: 0 <= k < |os| ==> Gather(os).value[k] == os[k].value
  {
    if os != [] {
      var init := os[..|os| - 1];
      GatherAllEmitted(init);
    }
  }

  /** The walk over a concatenation is the concatenation of the walks. */
  lemma {:induction false} GatherAppend<T>(a: seq<Outcome<T>>, b: seq<Outcome<T>>)
    ensures Gather(a + b) ==
      if Gather(a).Some? && Gather(b).Some? then Some(Gather(a).value + Gather(b).value) else None
  {
    if b == [] {
      assert a + b == a;
      if Gather(a).Some? {
        assert Gather(a).value + [] == Gather(a).value;
      }
    } else {
      var init := b[..|b| - 1];
      var ab := a + b;
      assert ab[..|ab| - 1] == a + init;
      assert ab[|ab| - 1] == b[|b| - 1];
      GatherAppend(a, init);
      var x, y := Gather(a), Gather(init);
      if x.Some? && y.Some? && b[|b| - 1].Emitted? {
        var z := b[|b| - 1].value;
        assert (x.value + y.value) + [z] == x.value + (y.value + [z]);
      }
    }
  }

  /** One more item: the walk over a longer prefix in terms of the shorter one. */
  lemma GatherStep<T>(os: seq<Outcome<T>>, i: nat)
    requires i < |os|
    ensures Gather(os[..i + 1]) ==
      match os[i]
      case Aborted => None
      case Skipped => Gather(os[..i])
      case Emitted(x) => if Gather(os[..i]).None? then None else Some(Gather(os[..i]).value + [x])
  {
    assert os[..i + 1][..i] == os[..i];
  }

  /** A walk that stopped on a prefix stops on the whole list. */
  lemma {:induction false} GatherAbortSticks<T>(os: seq<Outcome<T>>, i: nat)
    requires i <= |os| && Gather(os[..i]).None?
    ensures Gather(os).None?
    decreases |os| - i
  {
    if i < |os| {
      assert os[..i + 1][..i] == os[..i];
      GatherAbortSticks(os, i + 1);
    } else {
      assert os[..i] == os;
    }
  }

  /** A skipped item between two emitting ones leaves just their two results. */
  lemma GatherSkipMiddle<T>(os: seq<Outcome<T>>)
    requires |os| == 3 && os[0].Emitted? && os[1].Skipped? && os[2].Emitted?
    ensures Gather(os) == Some([os[0].value, os[2].value])
  {
    var one := os[..1];
    assert one[..0] == [];
    assert Gather(one) == Some([] + [os[0].value]);
    assert [] + [os[0].value] == [os[0].value];
    assert os[..2][..1] == one;
    assert Gather(os[..2]) == Gather(one);
    assert Gather(os) == Some(Gather(os[..2]).value + [os[2].value]);
    assert [os[0].value] + [os[2].value] == [os[0].value, os[2].value];
  }

  /** The walk over a list with one more item at the end. */
  lemma GatherSnoc<T>(os: seq<Outcome<T>>, o: Outcome<T>)
    ensures Gather(os + [o]) ==
      match o
      case Aborted => None
      case Skipped => Gather(os)
      case Emitted(x) => if Gather(os).None? then None else Some(Gather(os).value + [x])
  {
    assert (os + [o])[..|os|] == os;
  }

  /** Mapping a list with one more item at the end. */
  lemma MapSeqSnoc<A, B>(f: A -> B, s: seq<A>, x: A)
    ensures MapSeq(f, s + [x]) == MapSeq(f, s) + [f(x)]
  {
  }

  /** Items that contribute nothing can be dropped beforehand: the walk is the same. */
  lemma {:induction false} GatherDropsSkipped<A, T>(f: A -> Outcome<T>, keep: A -> bool, s: seq<A>)
    requires forall x :: !keep(x) ==> f(x).Skipped?
    ensures Gather(MapSeq(f, s)) == Gather(MapSeq(f, Filter(keep, s)))
  {
    if s != [] {
      var init, last := s[..|s| - 1], s[|s| - 1];
      assert s == init + [last];
      GatherDropsSkipped(f, keep, init);
      MapSeqSnoc(f, init, last);
      GatherSnoc(MapSeq(f, init), f(last));
      if keep(last) {
        MapSeqSnoc(f, Filter(keep, init), last);
        GatherSnoc(MapSeq(f, Filter(keep, init)), f(last));
      }
    }
  }
}
