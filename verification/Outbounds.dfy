/** Emitted outbounds and what they mean: the hop sequences found by following detour and selector
    links from a tag. */
module Outbounds {
  import opened Wrappers
  import opened Ids
  import opened TagCodec

  /** A node outbound dials through its detour; a selector forwards to one of its members. */
  datatype Outbound =
    | NodeOut(tag: Tag, node: Id, detour: Option<Tag>)
    | Selector(tag: Tag, members: seq<Tag>)

  predicate Builtin(t: Tag) {
    t.Direct? || t.Block?
  }

  ghost function TagsOf(outs: seq<Outbound>): set<Tag> {
    set o | o in outs :: o.tag
  }

  ghost function Targets(o: Outbound): set<Tag> {
    match o
    case NodeOut(_, _, None) => {}
    case NodeOut(_, _, Some(d)) => {d}
    case Selector(_, ms) => set m | m in ms
  }

  /** Tags are pairwise distinct and every link leads to a builtin or to an earlier outbound. */
  ghost predicate Ordered(outs: seq<Outbound>) {
    && (forall i, j :: 0 <= i < j < |outs| ==> outs[i].tag != outs[j].tag)
    && (forall i :: 0 <= i < |outs| ==> !Builtin(outs[i].tag))
    && (forall i, t :: 0 <= i < |outs| && t in Targets(outs[i]) ==>
          Builtin(t) || exists j :: 0 <= j < i && outs[j].tag == t)
  }

  /** w is the sequence of tags met from w[0] on, hops the nodes dialled, first hop first. */
  ghost predicate Follows(outs: seq<Outbound>, w: seq<Tag>, hops: seq<Id>)
    decreases |w|
  {
    && |w| > 0
    && if w[0].Direct? then |w| == 1 && hops == []
       else exists o :: o in outs && o.tag == w[0] && FollowsOut(outs, o, w, hops)
  }

  ghost predicate FollowsOut(outs: seq<Outbound>, o: Outbound, w: seq<Tag>, hops: seq<Id>)
    requires |w| > 0
    decreases |w|, 0
  {
    match o
    case NodeOut(_, n, None) => |w| == 1 && hops == [n]
    case NodeOut(_, n, Some(d)) =>
      |w| > 1 && w[1] == d && |hops| > 0 && hops[|hops| - 1] == n && Follows(outs, w[1..], hops[..|hops| - 1])
    case Selector(_, ms) => |w| > 1 && w[1] in ms && Follows(outs, w[1..], hops)
  }

  /** Traffic sent to tag t can leave through exactly these hops. */
  ghost predicate Routes(outs: seq<Outbound>, t: Tag, hops: seq<Id>) {
    exists w :: |w| > 0 && w[0] == t && Follows(outs, w, hops)
  }

  // ---------------------------------------------------------------- order

  lemma OrderedPrefix(a: seq<Outbound>, b: seq<Outbound>)
    requires a <= b && Ordered(b)
    ensures Ordered(a)
  {
    forall i, t | 0 <= i < |a| && t in Targets(a[i])
      ensures Builtin(t) || exists j :: 0 <= j < i && a[j].tag == t
    {
      assert b[i] == a[i];
      if !Builtin(t) {
        var j :| 0 <= j < i && b[j].tag == t;
        assert a[j] == b[j];
      }
    }
  }

  lemma OrderedAppend(outs: seq<Outbound>, o: Outbound)
    requires Ordered(outs) && !Builtin(o.tag) && o.tag !in TagsOf(outs)
    requires forall t :: t in Targets(o) ==> Builtin(t) || t in TagsOf(outs)
    ensures Ordered(outs + [o])
    ensures TagsOf(outs + [o]) == TagsOf(outs) + {o.tag}
  {
    var all := outs + [o];
    forall i, t | 0 <= i < |all| && t in Targets(all[i])
      ensures Builtin(t) || exists j :: 0 <= j < i && all[j].tag == t
    {
      if i == |outs| && !Builtin(t) {
        var p :| p in outs && p.tag == t;
        var j :| 0 <= j < |outs| && outs[j] == p;
        assert all[j].tag == t;
      } else if i < |outs| && !Builtin(t) {
        var j :| 0 <= j < i && outs[j].tag == t;
        assert all[j].tag == t;
      }
    }
    assert all[|outs|] == o;
  }

  lemma SameTagSameOut(outs: seq<Outbound>, a: Outbound, b: Outbound)
    requires Ordered(outs) && a in outs && b in outs && a.tag == b.tag
    ensures a == b
  {
    var i :| 0 <= i < |outs| && outs[i] == a;
    var j :| 0 <= j < |outs| && outs[j] == b;
    assert i == j;
  }

  /** Tag a has a link to tag b. */
  ghost predicate Links(outs: seq<Outbound>, a: Tag, b: Tag) {
    exists o :: o in outs && o.tag == a && b in Targets(o)
  }

  lemma LinksGoBack(outs: seq<Outbound>, i: nat, t: Tag)
    requires Ordered(outs) && i < |outs| && Links(outs, outs[i].tag, t)
    ensures Builtin(t) || exists j :: 0 <= j < i && outs[j].tag == t
  {
    var o :| o in outs && o.tag == outs[i].tag && t in Targets(o);
    SameTagSameOut(outs, o, outs[i]);
  }

  lemma BuiltinsHaveNoLinks(outs: seq<Outbound>, a: Tag)
    requires Ordered(outs) && Builtin(a)
    ensures forall b :: !Links(outs, a, b)
  {
    forall o | o in outs
      ensures o.tag != a
    {
      NotBuiltin(outs, o);
    }
  }

  /** Every walk along links ends: from the i-th outbound it meets at most i + 2 tags. */
  lemma {:induction false} FollowingEnds(outs: seq<Outbound>, w: seq<Tag>, i: nat)
    requires Ordered(outs) && i < |outs| && |w| > 0 && w[0] == outs[i].tag
    requires forall k :: 0 <= k < |w| - 1 ==> Links(outs, w[k], w[k + 1])
    ensures |w| <= i + 2
    decreases i
  {
    if |w| > 1 {
      assert Links(outs, w[0], w[1]) && (|w| > 2 ==> Links(outs, w[1], w[2]));
      LinksGoBack(outs, i, w[1]);
      var v := w[1..];
      if Builtin(w[1]) {
        BuiltinsHaveNoLinks(outs, w[1]);
      } else {
        var j :| 0 <= j < i && outs[j].tag == w[1];
        forall k | 0 <= k < |v| - 1
          ensures Links(outs, v[k], v[k + 1])
        {
          assert Links(outs, w[k + 1], w[k + 2]);
        }
        FollowingEnds(outs, v, j);
      }
    }
  }

  // ---------------------------------------------------------------- meaning of one tag

  lemma RoutesBuiltin(outs: seq<Outbound>, hops: seq<Id>)
    requires Ordered(outs)
    ensures Routes(outs, Direct, hops) <==> hops == []
    ensures !Routes(outs, Block, hops)
  {
    if hops == [] {
      assert Follows(outs, [Direct], []);
    }
    forall o | o in outs
      ensures o.tag != Block
    {
      NotBuiltin(outs, o);
    }
  }

  lemma RoutesNode(outs: seq<Outbound>, o: Outbound, hops: seq<Id>)
    requires Ordered(outs) && o in outs && o.NodeOut?
    ensures Routes(outs, o.tag, hops) <==>
            match o.detour
            case None => hops == [o.node]
            case Some(d) => |hops| > 0 && hops[|hops| - 1] == o.node && Routes(outs, d, hops[..|hops| - 1])
  {
    NotBuiltin(outs, o);
    if Routes(outs, o.tag, hops) {
      var w :| |w| > 0 && w[0] == o.tag && Follows(outs, w, hops);
      var p :| p in outs && p.tag == w[0] && FollowsOut(outs, p, w, hops);
      SameTagSameOut(outs, o, p);
      if o.detour.Some? {
        assert w[1..][0] == o.detour.value;
      }
    }
    match o.detour
    case None =>
      if hops == [o.node] {
        assert FollowsOut(outs, o, [o.tag], hops);
        assert Follows(outs, [o.tag], hops);
      }
    case Some(d) =>
      if |hops| > 0 && hops[|hops| - 1] == o.node && Routes(outs, d, hops[..|hops| - 1]) {
        var v :| |v| > 0 && v[0] == d && Follows(outs, v, hops[..|hops| - 1]);
        var w := [o.tag] + v;
        assert w[1..] == v;
        assert FollowsOut(outs, o, w, hops);
        assert Follows(outs, w, hops);
      }
  }

  lemma RoutesSelector(outs: seq<Outbound>, o: Outbound, hops: seq<Id>)
    requires Ordered(outs) && o in outs && o.Selector?
    ensures Routes(outs, o.tag, hops) <==> exists m :: m in o.members && Routes(outs, m, hops)
  {
    if Routes(outs, o.tag, hops) {
      SelectorForwards(outs, o, hops);
    }
    if m :| m in o.members && Routes(outs, m, hops) {
      SelectorReaches(outs, o, m, hops);
    }
  }

  lemma SelectorForwards(outs: seq<Outbound>, o: Outbound, hops: seq<Id>)
    requires Ordered(outs) && o in outs && o.Selector? && Routes(outs, o.tag, hops)
    ensures exists m :: m in o.members && Routes(outs, m, hops)
  {
    NotBuiltin(outs, o);
    var w :| |w| > 0 && w[0] == o.tag && Follows(outs, w, hops);
    var p :| p in outs && p.tag == w[0] && FollowsOut(outs, p, w, hops);
    SameTagSameOut(outs, o, p);
    assert w[1..][0] == w[1];
    assert Routes(outs, w[1], hops);
  }

  lemma SelectorReaches(outs: seq<Outbound>, o: Outbound, m: Tag, hops: seq<Id>)
    requires Ordered(outs) && o in outs && o.Selector? && m in o.members && Routes(outs, m, hops)
    ensures Routes(outs, o.tag, hops)
  {
    NotBuiltin(outs, o);
    var v :| |v| > 0 && v[0] == m && Follows(outs, v, hops);
    var w := [o.tag] + v;
    assert w[1..] == v;
    assert FollowsOut(outs, o, w, hops);
    assert Follows(outs, w, hops);
  }

  lemma NotBuiltin(outs: seq<Outbound>, o: Outbound)
    requires Ordered(outs) && o in outs
    ensures !Builtin(o.tag)
  {
    var i :| 0 <= i < |outs| && outs[i] == o;
  }

  // ---------------------------------------------------------------- adding outbounds

  lemma {:induction false} FollowsGrows(a: seq<Outbound>, b: seq<Outbound>, w: seq<Tag>, hops: seq<Id>)
    requires a <= b && Follows(a, w, hops)
    ensures Follows(b, w, hops)
    decreases |w|
  {
    if !w[0].Direct? {
      var o :| o in a && o.tag == w[0] && FollowsOut(a, o, w, hops);
      if !(o.NodeOut? && o.detour.None?) {
        FollowsGrows(a, b, w[1..], if o.NodeOut? then hops[..|hops| - 1] else hops);
      }
      assert o in b && FollowsOut(b, o, w, hops);
    }
  }

  lemma {:induction false} FollowsStays(a: seq<Outbound>, b: seq<Outbound>, w: seq<Tag>, hops: seq<Id>)
    requires a <= b && Ordered(b) && Follows(b, w, hops)
    requires w[0] in TagsOf(a) || Builtin(w[0])
    ensures Follows(a, w, hops)
    decreases |w|
  {
    if !w[0].Direct? {
      var o :| o in b && o.tag == w[0] && FollowsOut(b, o, w, hops);
      NotBuiltin(b, o);
      var p :| p in a && p.tag == w[0];
      SameTagSameOut(b, o, p);
      if !(o.NodeOut? && o.detour.None?) {
        TargetsWithin(a, b, o);
        assert w[1] in Targets(o);
        FollowsStays(a, b, w[1..], if o.NodeOut? then hops[..|hops| - 1] else hops);
      }
      assert FollowsOut(a, o, w, hops);
    }
  }

  lemma TargetsWithin(a: seq<Outbound>, b: seq<Outbound>, o: Outbound)
    requires a <= b && Ordered(b) && o in a
    ensures forall t :: t in Targets(o) ==> Builtin(t) || t in TagsOf(a)
  {
    OrderedPrefix(a, b);
    var i :| 0 <= i < |a| && a[i] == o;
    forall t | t in Targets(o) && !Builtin(t)
      ensures t in TagsOf(a)
    {
      var j :| 0 <= j < i && a[j].tag == t;
    }
  }

  /** Later outbounds do not change what an earlier tag means. */
  lemma RoutesStable(a: seq<Outbound>, b: seq<Outbound>, t: Tag, hops: seq<Id>)
    requires a <= b && Ordered(b) && (t in TagsOf(a) || Builtin(t))
    ensures Routes(a, t, hops) <==> Routes(b, t, hops)
  {
    if Routes(a, t, hops) {
      var w :| |w| > 0 && w[0] == t && Follows(a, w, hops);
      FollowsGrows(a, b, w, hops);
    }
    if Routes(b, t, hops) {
      var w :| |w| > 0 && w[0] == t && Follows(b, w, hops);
      FollowsStays(a, b, w, hops);
    }
  }
}
