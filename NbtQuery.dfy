/**
 * Paths into a tag tree: the selector sequences that containers and edit actions
 * read, write and erase through.
 *
 * The query class itself is not part of this model; this module is the interface
 * the rest of the model assumes of it. `Get` and `Remove` walk strictly and report
 * a missing step as `TagNotFound`; `Set` creates a missing compound (before a key
 * step) or list (before an index step), replaces or appends the last step's
 * target, and reports a node of the wrong kind as `QueryError`. A negative index
 * counts from the end of its list.
 */
module NbtQuery {
  import opened Tags

  datatype Selector = Key(key: string) | Index(index: int)

  type Query = seq<Selector>

  /** The outcome of a walk: a value, or one of the two query exceptions. */
  datatype Lookup<+T> = Found(value: T) | TagNotFound | QueryError(msg: string)

  /** The list position an index names: a negative index counts from the end. */
  function Slot(i: int, n: nat): int
  {
    if i < 0 then n + i else i
  }

  /** The child a selector names inside a tag, when the tag has one there. */
  function Child(t: Tag, s: Selector): Option<Tag>
  {
    match s
    case Key(k) => if t.Compound? && k in t.entries then Some(t.entries[k]) else None
    case Index(i) =>
      if t.List? && 0 <= Slot(i, |t.items|) < |t.items| then Some(t.items[Slot(i, |t.items|)]) else None
  }

  /** The tag with the child a selector names replaced by `c`. */
  function Replace(t: Tag, s: Selector, c: Tag): (r: Tag)
    requires Child(t, s).Some?
    ensures Child(r, s) == Some(c)
  {
    match s
    case Key(k) => Compound(t.entries[k := c])
    case Index(i) => List(t.items[Slot(i, |t.items|) := c])
  }

  /** The tag with the child a selector names detached; later list elements move down. */
  function Without(t: Tag, s: Selector): (r: Tag)
    requires Child(t, s).Some?
  {
    match s
    case Key(k) => Compound(t.entries - {k})
    case Index(i) =>
      var j := Slot(i, |t.items|);
      List(t.items[..j] + t.items[j + 1..])
  }

  /** `get(root)`: the addressed node; the empty query addresses the root itself. */
  function Get(root: Option<Tag>, q: Query): (r: Lookup<Option<Tag>>)
    ensures !r.QueryError?
    ensures r.Found? && q != [] ==> r.value.Some?
    decreases |q|
  {
    if q == [] then Found(root)
    else if root.None? then TagNotFound
    else
      match Child(root.value, q[0])
      case None => TagNotFound
      case Some(c) => Get(Some(c), q[1..])
  }

  /**
   * `set(root, value)`: the new root. An absent value at a key removes that key;
   * an absent value at an index is an error.
   */
  function Set(root: Option<Tag>, q: Query, v: Option<Tag>): (r: Lookup<Option<Tag>>)
    ensures !r.TagNotFound?
    ensures r.Found? && q != [] ==> r.value.Some?
    decreases |q|
  {
    if q == [] then Found(v)
    else
      match q[0]
      case Key(k) =>
        if root.Some? && !root.value.Compound? then QueryError("key selector on a tag that is not a compound")
        else
          var e := if root.Some? then root.value.entries else map[];
          (match Set(if k in e then Some(e[k]) else None, q[1..], v)
           case Found(c) => Found(Some(Compound(if c.Some? then e[k := c.value] else e - {k})))
           case QueryError(m) => QueryError(m))
      case Index(i) =>
        if root.Some? && !root.value.List? then QueryError("index selector on a tag that is not a list")
        else
          var items := if root.Some? then root.value.items else [];
          var j := Slot(i, |items|);
          if j < 0 || j > |items| then QueryError("index out of range")
          else
            (match Set(if j < |items| then Some(items[j]) else None, q[1..], v)
             case Found(c) =>
               if c.None? then QueryError("a list cannot hold an absent value")
               else if j < |items| then Found(Some(List(items[j := c.value])))
               else Found(Some(List(items + [c.value])))
             case QueryError(m) => QueryError(m))
  }

  /** `remove(root)`: the new root with the addressed node detached. */
  function Remove(root: Option<Tag>, q: Query): (r: Lookup<Option<Tag>>)
    ensures !r.QueryError?
    ensures r.Found? && q != [] ==> r.value.Some?
    decreases |q|
  {
    if q == [] then Found(None)
    else if root.None? then TagNotFound
    else
      match Child(root.value, q[0])
      case None => TagNotFound
      case Some(c) =>
        if |q| == 1 then Found(Some(Without(root.value, q[0])))
        else
          match Remove(Some(c), q[1..])
          case Found(c') => Found(Some(Replace(root.value, q[0], c'.value)))
          case TagNotFound => TagNotFound
  }

  /** `getParent()`: every selector but the last; the empty query has no parent. */
  function Parent(q: Query): (r: Option<Query>)
    ensures r.Some? <==> q != []
    ensures r.Some? ==> r.value + [q[|q| - 1]] == q
  {
    if q == [] then None else Some(q[..|q| - 1])
  }

  /** `join(other)`: the selectors of `a`, then those of `b`. */
  function Join(a: Query, b: Query): (r: Query)
    ensures |r| == |a| + |b| && r[..|a|] == a && r[|a|..] == b
  {
    a + b
  }

  /** A query whose index steps all count from the front. */
  predicate FromFront(q: Query)
  {
    forall i :: 0 <= i < |q| ==> q[i].Index? ==> q[i].index >= 0
  }
}

module NbtQueryFacts {
  import opened Tags
  import opened NbtQuery

  /** What was set is what is read back; an absent value set at a key leaves nothing there. */
  lemma {:induction false} SetThenGet(root: Option<Tag>, q: Query, v: Option<Tag>)
    requires Set(root, q, v).Found?
    ensures v.Some? || q == [] ==> Get(Set(root, q, v).value, q) == Found(v)
    ensures v.None? && q != [] ==> Get(Set(root, q, v).value, q) == TagNotFound
    decreases |q|
  {
    if q != [] {
      var r := Set(root, q, v).value.value;
      match q[0]
      case Key(k) =>
        var e := if root.Some? then root.value.entries else map[];
        var child := if k in e then Some(e[k]) else None;
        var c := Set(child, q[1..], v).value;
        SetThenGet(child, q[1..], v);
        if c.None? {
          assert q[1..] == [];
          assert Child(r, q[0]).None?;
        } else {
          assert Child(r, q[0]) == c;
        }
      case Index(i) =>
        var items := if root.Some? then root.value.items else [];
        var j := Slot(i, |items|);
        var child := if j < |items| then Some(items[j]) else None;
        SetThenGet(child, q[1..], v);
        var c := Set(child, q[1..], v).value;
        assert Child(r, q[0]) == c;
    }
  }

  /** `remove` fails exactly where `get` fails: a missing path is never silently skipped. */
  lemma {:induction false} RemoveNeedsPath(root: Option<Tag>, q: Query)
    ensures Remove(root, q).Found? <==> Get(root, q).Found?
    decreases |q|
  {
    if q != [] && root.Some? && Child(root.value, q[0]).Some? && |q| > 1 {
      RemoveNeedsPath(Child(root.value, q[0]), q[1..]);
    }
  }

  /** Setting a value along a path that resolves never fails. */
  lemma {:induction false} SetAlongPath(root: Option<Tag>, q: Query, v: Option<Tag>)
    requires Get(root, q).Found? && (v.Some? || q == [])
    ensures Set(root, q, v).Found?
    decreases |q|
  {
    if q != [] {
      var c := Child(root.value, q[0]).value;
      SetAlongPath(Some(c), q[1..], v);
    }
  }

  /** After removing a key, the path no longer resolves. */
  lemma {:induction false} RemoveThenGet(root: Option<Tag>, q: Query)
    requires q != [] && q[|q| - 1].Key? && Remove(root, q).Found?
    ensures Get(Remove(root, q).value, q) == TagNotFound
    decreases |q|
  {
    var t := root.value;
    var c := Child(t, q[0]).value;
    if |q| == 1 {
      assert Child(Without(t, q[0]), q[0]).None?;
    } else {
      RemoveThenGet(Some(c), q[1..]);
      var c' := Remove(Some(c), q[1..]).value.value;
      assert Child(Replace(t, q[0], c'), q[0]) == Some(c');
    }
  }

  /**
   * Disjoint-path independence: setting one path leaves every path that is neither
   * its prefix nor its extension reading as before.
   */
  lemma {:induction false} SetElsewhere(root: Option<Tag>, p: Query, q: Query, v: Option<Tag>)
    requires FromFront(p) && FromFront(q) && !(p <= q) && !(q <= p)
    requires Set(root, p, v).Found?
    ensures Get(Set(root, p, v).value, q) == Get(root, q)
    decreases |p|
  {
    if q[0] != p[0] {
      ChildElsewhere(root, p, q[0], v);
    } else {
      assert FromFront(p[1..]) && FromFront(q[1..]);
      PrefixTail(p, q);
      PrefixTail(q, p);
      var child := FirstChild(root, p[0]);
      SetElsewhere(child, p[1..], q[1..], v);
      SetBelowSame(root, p, q, v);
    }
  }

  /** The node a first selector reaches before `set`, absent where `set` would create it. */
  function FirstChild(root: Option<Tag>, s: Selector): Option<Tag>
  {
    match s
    case Key(k) =>
      var e := if root.Some? && root.value.Compound? then root.value.entries else map[];
      if k in e then Some(e[k]) else None
    case Index(i) =>
      var items := if root.Some? && root.value.List? then root.value.items else [];
      var j := Slot(i, |items|);
      if 0 <= j < |items| then Some(items[j]) else None
  }

  /**
   * Two paths that share their first selector read alike after `set` on the first
   * exactly as their tails read alike below that selector.
   */
  lemma {:induction false} SetBelowSame(root: Option<Tag>, p: Query, q: Query, v: Option<Tag>)
    requires |p| > 1 && |q| > 1 && p[0] == q[0] && Set(root, p, v).Found?
    requires p[0].Index? ==> p[0].index >= 0
    requires Set(FirstChild(root, p[0]), p[1..], v).Found?
    requires Get(Set(FirstChild(root, p[0]), p[1..], v).value, q[1..]) == Get(FirstChild(root, p[0]), q[1..])
    ensures Get(Set(root, p, v).value, q) == Get(root, q)
  {
    var child := FirstChild(root, p[0]);
    var r := Set(root, p, v).value.value;
    var c := Set(child, p[1..], v).value;
    assert Child(r, q[0]) == c;
    if child.None? {
      assert Get(None, q[1..]) == TagNotFound;
    }
  }

  /** Walking a joined query is walking the first part, then the second from where it ended. */
  lemma {:induction false} GetJoin(root: Option<Tag>, a: Query, b: Query)
    ensures Get(root, Join(a, b)) == match Get(root, a)
      case Found(x) => Get(x, b)
      case _ => TagNotFound
    decreases |a|
  {
    if a != [] {
      assert Join(a, b)[0] == a[0] && Join(a, b)[1..] == Join(a[1..], b);
      if root.Some? && Child(root.value, a[0]).Some? {
        GetJoin(Child(root.value, a[0]), a[1..], b);
      }
    }
  }

  /** Two queries that start alike are prefixes of each other exactly as their tails are. */
  lemma {:induction false} PrefixTail(p: Query, q: Query)
    requires p != [] && q != [] && p[0] == q[0]
    ensures p[1..] <= q[1..] <==> p <= q
  {
    if p[1..] <= q[1..] {
      assert p == [p[0]] + p[1..] && q == [q[0]] + q[1..];
    }
  }

  /** Setting below one selector leaves the child under any other front-counted selector as it was. */
  lemma {:induction false} ChildElsewhere(root: Option<Tag>, p: Query, s: Selector, v: Option<Tag>)
    requires p != [] && s != p[0] && Set(root, p, v).Found?
    requires p[0].Index? ==> p[0].index >= 0
    requires s.Index? ==> s.index >= 0
    ensures var r := Set(root, p, v).value.value;
      Child(r, s) == if root.Some? then Child(root.value, s) else None
  {
  }
}
