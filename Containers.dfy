/**
 * Containers: addressable roots, and views of them through a query.
 *
 * A `Store` is the one mutable root a chain of containers bottoms out at (an entity,
 * a file, a literal value, the caller's buffer); the container supplying it reports
 * its selector, selector query, type names and whether it is read-only. A `Complex`
 * container wraps another container and a query: it holds no tree of its own, and
 * every read and write goes through the wrapped container.
 */
module Containers {
  import opened Tags
  import opened NbtQuery
  import NbtQueryFacts

  class Store {
    var root: Option<Tag>
    const readonly: bool
    const selector: Option<string>
    const selectorQuery: Option<Query>
    const types: seq<string>
    /** Whether the supplier is a literal value rather than a game-world or file source. */
    const isValue: bool

    constructor (root: Option<Tag>, readonly: bool, selector: Option<string>, selectorQuery: Option<Query>, types: seq<string>, isValue: bool)
      ensures this.root == root && this.readonly == readonly && this.selector == selector
      ensures this.selectorQuery == selectorQuery && this.types == types && this.isValue == isValue
    {
      this.root := root;
      this.readonly := readonly;
      this.selector := selector;
      this.selectorQuery := selectorQuery;
      this.types := types;
      this.isValue := isValue;
    }
  }

  datatype Container =
    | Root(store: Store)
    | Complex(inner: Container, query: Query, selector: Option<string>)

  /** The store at the bottom of a chain. */
  function StoreOf(c: Container): Store
  {
    match c
    case Root(s) => s
    case Complex(inner, _, _) => StoreOf(inner)
  }

  /** Every query of the chain, outermost last: the path from the store's root to what `c` addresses. */
  function Path(c: Container): (q: Query)
    ensures c.Root? ==> q == []
  {
    match c
    case Root(_) => []
    case Complex(inner, query, _) => Path(inner) + query
  }

  /** `getSelector()`. */
  function Selector(c: Container): Option<string>
  {
    match c
    case Root(s) => s.selector
    case Complex(_, _, sel) => sel
  }

  /** `new NBTContainerComplex(container, query)`: the view takes the wrapped container's selector. */
  function Compose(inner: Container, q: Query): (c: Container)
    ensures c.Complex? && c.inner == inner && c.query == q
    ensures Selector(c) == Selector(inner) && StoreOf(c) == StoreOf(inner)
    ensures Path(c) == Path(inner) + q
  {
    Complex(inner, q, Selector(inner))
  }

  /** `readTag()`: a path that does not resolve reads as no value; where the strict read succeeds, both agree. */
  function TagIn(c: Container, root: Option<Tag>): (r: Option<Tag>)
    ensures CustomTagIn(c, root).Ok? ==> r == CustomTagIn(c, root).value
  {
    match c
    case Root(_) => root
    case Complex(inner, q, _) =>
      match Get(TagIn(inner, root), q)
      case Found(t) => t
      case _ => None
  }

  /**
   * `readCustomTag()`: one walk of the joined path from the store's root, failing
   * exactly where that path does not resolve.
   */
  function CustomTagIn(c: Container, root: Option<Tag>): (r: Result<Option<Tag>>)
    ensures r.Ok? <==> Get(root, Path(c)).Found?
    ensures r.Ok? ==> r.value == Get(root, Path(c)).value
  {
    match c
    case Root(_) => Ok(root)
    case Complex(inner, q, _) =>
      NbtQueryFacts.GetJoin(root, Path(inner), q);
      assert Path(c) == Join(Path(inner), q);
      match CustomTagIn(inner, root)
      case Err(m) => Err(m)
      case Ok(t) =>
        match Get(t, q)
        case Found(x) => Ok(x)
        case _ => Err("tag not found")
  }

  /** `writeTag(v)`: the store root afterwards, from which the view reads `v`; a query error writes nothing. */
  function WriteIn(c: Container, root: Option<Tag>, v: Option<Tag>): (r: Result<Option<Tag>>)
    ensures r.Ok? ==> TagIn(c, r.value) == v
  {
    match c
    case Root(_) => Ok(v)
    case Complex(inner, q, _) =>
      match Set(TagIn(inner, root), q, v)
      case Found(n) =>
        NbtQueryFacts.SetThenGet(TagIn(inner, root), q, v);
        WriteIn(inner, root, n)
      case QueryError(m) => Err(m)
      case TagNotFound => Err("tag not found")
  }

  /** `writeCustomTag(v)`: as `writeTag`, reading the wrapped tree strictly; when it succeeds it writes what `writeTag` would. */
  function WriteCustomIn(c: Container, root: Option<Tag>, v: Option<Tag>): (r: Result<Option<Tag>>)
    ensures r.Ok? ==> r == WriteIn(c, root, v)
  {
    match c
    case Root(_) => Ok(v)
    case Complex(inner, q, _) =>
      match CustomTagIn(inner, root)
      case Err(m) => Err(m)
      case Ok(t) =>
        match Set(t, q, v)
        case Found(n) => WriteCustomIn(inner, root, n)
        case QueryError(m) => Err(m)
        case TagNotFound => Err("tag not found")
  }

  /**
   * `eraseTag()`: the addressed node detached; a path that does not resolve is a
   * failure. Once a key is erased, the view reads nothing there.
   */
  function EraseIn(c: Container, root: Option<Tag>): (r: Result<Option<Tag>>)
    ensures r.Ok? && c.Complex? && c.query != [] && c.query[|c.query| - 1].Key? ==> TagIn(c, r.value) == None
  {
    match c
    case Root(_) => Ok(None)
    case Complex(inner, q, _) =>
      match Remove(TagIn(inner, root), q)
      case Found(n) =>
        assert q != [] && q[|q| - 1].Key? ==> Get(n, q) == TagNotFound by {
          if q != [] && q[|q| - 1].Key? {
            NbtQueryFacts.RemoveThenGet(TagIn(inner, root), q);
          }
        }
        WriteIn(inner, root, n)
      case _ => Err("tag not found")
  }

  /** `eraseCustomTag()`: as `eraseTag`, reading the wrapped tree strictly; when it succeeds it erases as `eraseTag` would. */
  function EraseCustomIn(c: Container, root: Option<Tag>): (r: Result<Option<Tag>>)
    ensures r.Ok? ==> r == EraseIn(c, root)
  {
    match c
    case Root(_) => Ok(None)
    case Complex(inner, q, _) =>
      match CustomTagIn(inner, root)
      case Err(m) => Err(m)
      case Ok(t) =>
        match Remove(t, q)
        case Found(n) => WriteCustomIn(inner, root, n)
        case _ => Err("tag not found")
  }

  /**
   * `getSelectorQuery()`: empty for a view with its own selector; otherwise the
   * wrapped selector query joined with the local query, or the local query alone.
   */
  function SelectorQuery(c: Container): (r: Option<Query>)
    ensures c.Complex? ==> r.Some?
    ensures c.Complex? && c.selector.Some? ==> r == Some([])
  {
    match c
    case Root(s) => s.selectorQuery
    case Complex(inner, q, sel) =>
      if sel.Some? then Some([])
      else
        match SelectorQuery(inner)
        case None => Some(q)
        case Some(sq) => Some(Join(sq, q))
  }

  /** `getRootContainer()`: the container at the bottom of the chain. */
  function RootContainer(c: Container): (r: Container)
    ensures r.Root? && StoreOf(r) == StoreOf(c)
  {
    match c
    case Root(_) => c
    case Complex(inner, _, _) => RootContainer(inner)
  }

  /** `isObjectReadonly()`: what the supplier at the bottom of the chain says. */
  function Readonly(c: Container): (r: bool)
    ensures r == StoreOf(c).readonly
  {
    match c
    case Root(s) => s.readonly
    case Complex(inner, _, _) => Readonly(inner)
  }

  /** `getTypes()`: a view reports no type names of its own. */
  function Types(c: Container): (r: seq<string>)
    ensures c.Complex? ==> r == []
  {
    match c
    case Root(s) => s.types
    case Complex(_, _, _) => []
  }

  /** `writeTag(v)` on the store: it ends up holding `WriteIn`'s root, or is untouched on failure. */
  method WriteTag(c: Container, v: Option<Tag>) returns (r: Result<()>)
    modifies StoreOf(c)
    ensures var w := WriteIn(c, old(StoreOf(c).root), v);
      (w.Ok? ==> r == Ok(()) && StoreOf(c).root == w.value) &&
      (w.Err? ==> r == Err(w.msg) && StoreOf(c).root == old(StoreOf(c).root))
    decreases c
  {
    match c
    case Root(s) =>
      s.root := v;
      r := Ok(());
    case Complex(inner, q, _) =>
      var written := Set(TagIn(inner, StoreOf(inner).root), q, v);
      if written.Found? {
        r := WriteTag(inner, written.value);
      } else {
        r := Err(written.msg);
      }
  }

  /** `writeCustomTag(v)` on the store. */
  method WriteCustomTag(c: Container, v: Option<Tag>) returns (r: Result<()>)
    modifies StoreOf(c)
    ensures var w := WriteCustomIn(c, old(StoreOf(c).root), v);
      (w.Ok? ==> r == Ok(()) && StoreOf(c).root == w.value) &&
      (w.Err? ==> r == Err(w.msg) && StoreOf(c).root == old(StoreOf(c).root))
    decreases c
  {
    match c
    case Root(s) =>
      s.root := v;
      r := Ok(());
    case Complex(inner, q, _) =>
      var cur := CustomTagIn(inner, StoreOf(inner).root);
      if cur.Err? {
        return Err(cur.msg);
      }
      var written := Set(cur.value, q, v);
      if written.Found? {
        r := WriteCustomTag(inner, written.value);
      } else {
        r := Err(written.msg);
      }
  }

  /** `eraseTag()` on the store. */
  method EraseTag(c: Container) returns (r: Result<()>)
    modifies StoreOf(c)
    ensures var w := EraseIn(c, old(StoreOf(c).root));
      (w.Ok? ==> r == Ok(()) && StoreOf(c).root == w.value) &&
      (w.Err? ==> r == Err(w.msg) && StoreOf(c).root == old(StoreOf(c).root))
  {
    match c
    case Root(s) =>
      s.root := None;
      r := Ok(());
    case Complex(inner, q, _) =>
      var removed := Remove(TagIn(inner, StoreOf(inner).root), q);
      if removed.Found? {
        r := WriteTag(inner, removed.value);
      } else {
        r := Err("tag not found");
      }
  }

  /** `eraseCustomTag()` on the store. */
  method EraseCustomTag(c: Container) returns (r: Result<()>)
    modifies StoreOf(c)
    ensures var w := EraseCustomIn(c, old(StoreOf(c).root));
      (w.Ok? ==> r == Ok(()) && StoreOf(c).root == w.value) &&
      (w.Err? ==> r == Err(w.msg) && StoreOf(c).root == old(StoreOf(c).root))
  {
    match c
    case Root(s) =>
      s.root := None;
      r := Ok(());
    case Complex(inner, q, _) =>
      var cur := CustomTagIn(inner, StoreOf(inner).root);
      if cur.Err? {
        return Err(cur.msg);
      }
      var removed := Remove(cur.value, q);
      if removed.Found? {
        r := WriteCustomTag(inner, removed.value);
      } else {
        r := Err("tag not found");
      }
  }

  /** `getCustomTag(query)` of a container: the value at `q` below it, no value where the path does not resolve. */
  function ValueAt(c: Container, root: Option<Tag>, q: Query): (r: Option<Tag>)
    ensures Get(root, Path(c) + q).Found? ==> r == Get(root, Path(c) + q).value
    ensures !Get(TagIn(c, root), q).Found? ==> r == None
  {
    TagIn(Compose(c, q), root)
  }

  /** `setCustomTag(query, value)` of a container. */
  method SetAt(c: Container, q: Query, v: Option<Tag>) returns (r: Result<()>)
    modifies StoreOf(c)
    ensures var w := WriteCustomIn(Compose(c, q), old(StoreOf(c).root), v);
      (w.Ok? ==> r == Ok(()) && StoreOf(c).root == w.value) &&
      (w.Err? ==> r == Err(w.msg) && StoreOf(c).root == old(StoreOf(c).root))
  {
    r := WriteCustomTag(Compose(c, q), v);
  }

  /** `removeTag(query)` of a container. */
  method RemoveAt(c: Container, q: Query) returns (r: Result<()>)
    modifies StoreOf(c)
    ensures var w := EraseIn(Compose(c, q), old(StoreOf(c).root));
      (w.Ok? ==> r == Ok(()) && StoreOf(c).root == w.value) &&
      (w.Err? ==> r == Err(w.msg) && StoreOf(c).root == old(StoreOf(c).root))
  {
    r := EraseTag(Compose(c, q));
  }
}

module ContainerFacts {
  import opened Tags
  import opened NbtQuery
  import opened NbtQueryFacts
  import opened Containers

  /** A chain of views reads what the joined query reads from the store's root. */
  lemma {:induction false} ReadThroughChain(c: Container, root: Option<Tag>)
    ensures TagIn(c, root) == match Get(root, Path(c))
      case Found(x) => x
      case _ => None
  {
    match c
    case Root(_) =>
    case Complex(inner, q, _) =>
      ReadThroughChain(inner, root);
      GetJoin(root, Path(inner), q);
      assert Path(c) == Join(Path(inner), q);
  }

  /** Where the path below the wrapped tree does not resolve, reading gives no value but erasing fails. */
  lemma {:induction false} MissingPath(c: Container, root: Option<Tag>)
    requires c.Complex? && Get(TagIn(c.inner, root), c.query) == TagNotFound
    ensures TagIn(c, root) == None
    ensures EraseIn(c, root).Err?
  {
    RemoveNeedsPath(TagIn(c.inner, root), c.query);
  }

  /** Where the path does not resolve, a strict read fails. */
  lemma {:induction false} MissingPathStrict(c: Container, root: Option<Tag>)
    requires c.Complex? && Get(root, Path(c)) == TagNotFound
    ensures CustomTagIn(c, root).Err?
    ensures EraseCustomIn(c, root).Err?
  {
    GetJoin(root, Path(c.inner), c.query);
    assert Path(c) == Join(Path(c.inner), c.query);
    if CustomTagIn(c.inner, root).Ok? {
      RemoveNeedsPath(CustomTagIn(c.inner, root).value, c.query);
    }
  }

  /** Writing a value through a chain whose path resolves never fails. */
  lemma {:induction false} WriteAlongPath(c: Container, root: Option<Tag>, v: Option<Tag>)
    requires Get(root, Path(c)).Found? && (v.Some? || Path(c) == [])
    ensures WriteIn(c, root, v).Ok?
  {
    match c
    case Root(_) =>
    case Complex(inner, q, _) =>
      GetJoin(root, Path(inner), q);
      assert Path(c) == Join(Path(inner), q);
      ReadThroughChain(inner, root);
      SetAlongPath(TagIn(inner, root), q, v);
      WriteAlongPath(inner, root, Set(TagIn(inner, root), q, v).value);
  }

  /** No view in the chain has a selector of its own. */
  predicate NoSelectors(c: Container)
  {
    match c
    case Root(_) => true
    case Complex(inner, _, sel) => sel.None? && NoSelectors(inner)
  }

  /**
   * Without selectors on the way, the selector query is the root supplier's
   * selector query followed by every query of the chain.
   */
  lemma {:induction false} SelectorQueryChain(c: Container)
    requires c.Complex? && NoSelectors(c)
    ensures var base := if StoreOf(c).selectorQuery.Some? then StoreOf(c).selectorQuery.value else [];
      SelectorQuery(c) == Some(base + Path(c))
  {
    var inner := c.inner;
    if inner.Complex? {
      SelectorQueryChain(inner);
      var base := if StoreOf(c).selectorQuery.Some? then StoreOf(c).selectorQuery.value else [];
      assert Join(base + Path(inner), c.query) == base + Path(c);
    } else {
      assert Path(c) == c.query;
    }
  }
}
