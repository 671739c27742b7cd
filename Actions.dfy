/**
 * The edit actions of the `nbt` command: swap, move, rename, edit, cut and copy.
 *
 * Each action holds its arguments. `execute` first prepares an argument that is
 * still deferred (the first one without context, the second one with the first
 * one's container and query as context) and stops; once every argument holds a
 * container it reads, writes and erases through those containers and reports to
 * the sender. A Java exception thrown out of `execute` is the `Raised` outcome.
 */
module Actions {
  import opened Tags
  import opened NbtQuery
  import opened Containers
  import opened Arguments

  const SuccessSwapNull := "success_swap_null"
  const SuccessSwap := "success_swap"
  const ErrorNull := "error_null"
  const SuccessMove := "success_move"
  const FailMove := "fail_move"
  const FailRename := "fail_rename"
  const SuccessRename := "success_rename"
  const SuccessEdit := "success_edit"
  const FailEdit := "fail_edit"
  const SuccessCut := "success_cut"
  const SuccessCopied := "success_copied"
  const NullPointer := "NullPointerException"

  /** How one call of `execute` ended. */
  datatype Run =
    | Preparing(prepared: Prepared)     // an argument was still deferred: what its `prepare` answered
    | Completed
    | Raised(msg: string)               // the exception `execute` throws
    | RaisedAt(msg: string, at: Query)  // an exception whose message names a query

  /** The store an argument's container reads and writes, once it has one. */
  function Holds(a: Argument): set<object>
    reads a
  {
    if a.container.Some? then {StoreOf(a.container.value)} else {}
  }

  // ---------------------------------------------------------------- preparing the arguments

  /** What `prepare` did to the one deferred argument of an action. */
  twostate predicate Gated1(arg: Argument, env: Env, p: Prepared)
    requires old(arg.Valid() && arg.NeedPrepare())
    reads arg, arg.caller, Holds(arg)
  {
    arg.Reached(Plan(old(arg.objectFuture.value), old(arg.queryFuture), None, Ok(None), arg.caller.isPlayer, env), p) &&
    (p == Held ==> arg.caller.sent == old(arg.caller.sent) + [RequestSelect] && arg.caller.held == old(arg.caller.held) + [arg]) &&
    (p != Held ==> unchanged(arg.caller))
  }

  /**
   * What `prepare` did to the arguments of a two-argument action: the first one is
   * prepared without context; only when it already holds a container is the second
   * one prepared, inside the first one's container and query. No store is touched:
   * the argument that is not prepared keeps its container and what its store holds.
   */
  twostate predicate Gated2(arg1: Argument, arg2: Argument, env: Env, p: Prepared)
    requires old(arg1.Valid() && arg2.Valid() && (arg1.NeedPrepare() || arg2.NeedPrepare()))
    reads arg1, arg2, arg1.caller, Holds(arg1), Holds(arg2)
  {
    (old(arg1.NeedPrepare()) ==>
       unchanged(arg2) &&
       (arg2.container.Some? ==> StoreOf(arg2.container.value).root == old(StoreOf(arg2.container.value).root)) &&
       arg1.Reached(Plan(old(arg1.objectFuture.value), old(arg1.queryFuture), None, Ok(None), arg1.caller.isPlayer, env), p)) &&
    (old(!arg1.NeedPrepare()) ==>
       unchanged(arg1) &&
       StoreOf(arg1.container.value).root == old(StoreOf(arg1.container.value).root) &&
       arg2.Reached(Plan(old(arg2.objectFuture.value), old(arg2.queryFuture), Some(old(Context(arg1.container.value, arg1.query.value))),
                         old(Tree(Some(Context(arg1.container.value, arg1.query.value)))), arg1.caller.isPlayer, env), p)) &&
    (p == Held ==>
       arg1.caller.sent == old(arg1.caller.sent) + [RequestSelect] && arg1.caller.shown == old(arg1.caller.shown) &&
       arg1.caller.held == old(arg1.caller.held) + [if old(arg1.NeedPrepare()) then arg1 else arg2]) &&
    (p != Held ==> unchanged(arg1.caller))
  }

  // ---------------------------------------------------------------- writing through a container

  /** The root after writing `v` at `q` below `c` as swap does: `setCustomTag` for a value, `removeTag` for none. */
  function Put(c: Container, root: Option<Tag>, q: Query, v: Option<Tag>): (r: Result<Option<Tag>>)
    ensures r.Ok? && (v.Some? || KeyEnded(q)) ==> ValueAt(c, r.value, q) == v
    ensures v.Some? && !Get(root, Path(c)).Found? ==> r.Err?
  {
    if v.Some? then WriteCustomIn(Compose(c, q), root, v) else EraseIn(Compose(c, q), root)
  }

  /** Writes as `Put` says. */
  method PutAt(c: Container, q: Query, v: Option<Tag>) returns (r: Result<()>)
    modifies StoreOf(c)
    ensures var w := Put(c, old(StoreOf(c).root), q, v);
      (w.Ok? ==> r == Ok(()) && StoreOf(c).root == w.value) &&
      (w.Err? ==> r == Err(w.msg) && StoreOf(c).root == old(StoreOf(c).root))
  {
    if v.Some? {
      r := SetAt(c, q, v);
    } else {
      r := RemoveAt(c, q);
    }
  }

  /** A path whose value can be read back after an erase: it ends with a key. */
  predicate KeyEnded(q: Query)
  {
    q != [] && q[|q| - 1].Key?
  }

  // ---------------------------------------------------------------- swap

  /**
   * The end state of a swap of the value at `q1` below `c1` with the value at `q2`
   * below `c2`. The second write starts from what the first one left when both
   * containers share a store; a failing write ends the action with what was
   * written so far.
   */
  twostate predicate Exchanged(c1: Container, q1: Query, c2: Container, q2: Query, caller: Caller, r: Run)
    reads StoreOf(c1), StoreOf(c2), caller
  {
    var s1, s2 := StoreOf(c1), StoreOf(c2);
    var b1 := ValueAt(c1, old(s1.root), q1);
    var b2 := ValueAt(c2, old(s2.root), q2);
    var w1 := Put(c1, old(s1.root), q1, b2);
    var mid := if s2 == s1 && w1.Ok? then w1.value else old(s2.root);
    var w2 := Put(c2, mid, q2, b1);
    caller.held == old(caller.held) && caller.shown == old(caller.shown) &&
    if b1.None? && b2.None? then
      r == Completed && s1.root == old(s1.root) && s2.root == old(s2.root) &&
      caller.sent == old(caller.sent) + [SuccessSwapNull]
    else if w1.Err? then
      r == Raised(w1.msg) && s1.root == old(s1.root) && s2.root == old(s2.root) && caller.sent == old(caller.sent)
    else if w2.Err? then
      r == Raised(w2.msg) && s1.root == w1.value && s2.root == mid && caller.sent == old(caller.sent)
    else
      r == Completed && s2.root == w2.value && (s1 != s2 ==> s1.root == w1.value) &&
      caller.sent == old(caller.sent) + [SuccessSwap]
  }

  /** The body of `ActionSwap.execute` once both arguments hold a container. */
  method Exchange(c1: Container, q1: Query, c2: Container, q2: Query, caller: Caller) returns (r: Run)
    modifies StoreOf(c1), StoreOf(c2), caller
    ensures Exchanged(c1, q1, c2, q2, caller, r)
  {
    assert allocated(StoreOf(c1)) && allocated(StoreOf(c2));  // the stores the calls below leave alone keep their roots
    var b1 := ValueAt(c1, StoreOf(c1).root, q1);
    var b2 := ValueAt(c2, StoreOf(c2).root, q2);
    if b1.None? && b2.None? {
      caller.Send(SuccessSwapNull);
      return Completed;
    }
    var w1 := PutAt(c1, q1, b2);
    if w1.Err? {
      return Raised(w1.msg);
    }
    var w2 := PutAt(c2, q2, b1);
    if w2.Err? {
      return Raised(w2.msg);
    }
    caller.Send(SuccessSwap);
    r := Completed;
  }

  class Swap {
    const caller: Caller
    const arg1: Argument
    const arg2: Argument

    predicate Valid()
      reads this, arg1, arg2
    {
      arg1 != arg2 && arg1.caller == caller && arg2.caller == caller && arg1.Valid() && arg2.Valid()
    }

    constructor (caller: Caller, arg1: Argument, arg2: Argument)
      ensures this.caller == caller && this.arg1 == arg1 && this.arg2 == arg2
    {
      this.caller := caller;
      this.arg1 := arg1;
      this.arg2 := arg2;
    }

    /** `execute()`: prepares what is deferred, or swaps the two values. */
    method Execute(env: Env) returns (r: Run)
      requires Valid()
      modifies arg1, arg2, caller, Holds(arg1), Holds(arg2)
      ensures Valid()
      ensures old(arg1.NeedPrepare() || arg2.NeedPrepare()) ==> r.Preparing? && Gated2(arg1, arg2, env, r.prepared)
      ensures old(!arg1.NeedPrepare() && !arg2.NeedPrepare()) ==>
        unchanged(arg1, arg2) &&
        Exchanged(old(arg1.container.value), old(arg1.query.value), old(arg2.container.value), old(arg2.query.value), caller, r)
    {
      if arg1.NeedPrepare() {
        var p := arg1.Prepare(None, env);
        return Preparing(p);
      }
      if arg2.NeedPrepare() {
        var p := arg2.Prepare(Some(Context(arg1.container.value, arg1.query.value)), env);
        return Preparing(p);
      }
      r := Exchange(arg1.container.value, arg1.query.value, arg2.container.value, arg2.query.value, caller);
    }
  }

  /** `new ActionSwap(caller, o1, q1, o2, q2)`: throws when either argument does. */
  method MakeSwap(caller: Caller, o1: Option<string>, q1: Option<string>, o2: Option<string>, q2: Option<string>, env: Env)
    returns (r: Result<Swap>)
    ensures r.Err? <==> Fails(o1, q1, env) || Fails(o2, q2, env)
    ensures r.Ok? ==> fresh(r.value) && fresh(r.value.arg1) && fresh(r.value.arg2) && r.value.caller == caller && r.value.Valid()
  {
    var a1 := Make(caller, o1, q1, env);
    if a1.Err? {
      return Err(a1.msg);
    }
    var a2 := Make(caller, o2, q2, env);
    if a2.Err? {
      return Err(a2.msg);
    }
    var s := new Swap(caller, a1.value, a2.value);
    r := Ok(s);
  }

  // ---------------------------------------------------------------- move

  /**
   * The end state of moving the value at `q1` below `c1` to `q2` below `c2`: no
   * value is an error; otherwise it is written at the target first and erased at
   * the source after, and a failure of either is reported naming the target.
   */
  twostate predicate Moved(c1: Container, q1: Query, c2: Container, q2: Query, caller: Caller, r: Run)
    reads StoreOf(c1), StoreOf(c2), caller
  {
    var s1, s2 := StoreOf(c1), StoreOf(c2);
    var base := ValueAt(c1, old(s1.root), q1);
    var w := WriteCustomIn(Compose(c2, q2), old(s2.root), base);
    var mid := if s1 == s2 && w.Ok? then w.value else old(s1.root);
    var e := EraseIn(Compose(c1, q1), mid);
    caller.held == old(caller.held) &&
    if base.None? then
      r == Raised(ErrorNull) && s1.root == old(s1.root) && s2.root == old(s2.root) &&
      caller.sent == old(caller.sent) && caller.shown == old(caller.shown)
    else if w.Err? then
      r == RaisedAt(FailMove, q2) && s1.root == old(s1.root) && s2.root == old(s2.root) &&
      caller.sent == old(caller.sent) && caller.shown == old(caller.shown)
    else if e.Err? then
      r == RaisedAt(FailMove, q2) && s2.root == w.value && s1.root == mid &&
      caller.sent == old(caller.sent) && caller.shown == old(caller.shown)
    else
      r == Completed && s1.root == e.value && (s1 != s2 ==> s2.root == w.value) &&
      caller.sent == old(caller.sent) + [SuccessMove] && caller.shown == old(caller.shown) + [base]
  }

  /** The body of `ActionMoveLast.execute` once both arguments hold a container. */
  method Relocate(c1: Container, q1: Query, c2: Container, q2: Query, caller: Caller) returns (r: Run)
    modifies StoreOf(c1), StoreOf(c2), caller
    ensures Moved(c1, q1, c2, q2, caller, r)
  {
    assert allocated(StoreOf(c1)) && allocated(StoreOf(c2));  // the stores the calls below leave alone keep their roots
    var base := ValueAt(c1, StoreOf(c1).root, q1);
    if base.None? {
      return Raised(ErrorNull);
    }
    var w := SetAt(c2, q2, base);
    if w.Err? {
      return RaisedAt(FailMove, q2);
    }
    var e := RemoveAt(c1, q1);
    if e.Err? {
      return RaisedAt(FailMove, q2);
    }
    caller.SendValue(SuccessMove, base);
    r := Completed;
  }

  class MoveLast {
    const caller: Caller
    const arg1: Argument
    const arg2: Argument

    predicate Valid()
      reads this, arg1, arg2
    {
      arg1 != arg2 && arg1.caller == caller && arg2.caller == caller && arg1.Valid() && arg2.Valid()
    }

    constructor (caller: Caller, arg1: Argument, arg2: Argument)
      ensures this.caller == caller && this.arg1 == arg1 && this.arg2 == arg2
    {
      this.caller := caller;
      this.arg1 := arg1;
      this.arg2 := arg2;
    }

    /** `execute()`: prepares what is deferred, or moves the first value to the second place. */
    method Execute(env: Env) returns (r: Run)
      requires Valid()
      modifies arg1, arg2, caller, Holds(arg1), Holds(arg2)
      ensures Valid()
      ensures old(arg1.NeedPrepare() || arg2.NeedPrepare()) ==> r.Preparing? && Gated2(arg1, arg2, env, r.prepared)
      ensures old(!arg1.NeedPrepare() && !arg2.NeedPrepare()) ==>
        unchanged(arg1, arg2) &&
        Moved(old(arg1.container.value), old(arg1.query.value), old(arg2.container.value), old(arg2.query.value), caller, r)
    {
      if arg1.NeedPrepare() {
        var p := arg1.Prepare(None, env);
        return Preparing(p);
      }
      if arg2.NeedPrepare() {
        var p := arg2.Prepare(Some(Context(arg1.container.value, arg1.query.value)), env);
        return Preparing(p);
      }
      r := Relocate(arg1.container.value, arg1.query.value, arg2.container.value, arg2.query.value, caller);
    }
  }

  /** `new ActionMoveLast(caller, o1, q1, o2, q2)`. */
  method MakeMoveLast(caller: Caller, o1: Option<string>, q1: Option<string>, o2: Option<string>, q2: Option<string>, env: Env)
    returns (r: Result<MoveLast>)
    ensures r.Err? <==> Fails(o1, q1, env) || Fails(o2, q2, env)
    ensures r.Ok? ==> fresh(r.value) && fresh(r.value.arg1) && fresh(r.value.arg2) && r.value.caller == caller && r.value.Valid()
  {
    var a1 := Make(caller, o1, q1, env);
    if a1.Err? {
      return Err(a1.msg);
    }
    var a2 := Make(caller, o2, q2, env);
    if a2.Err? {
      return Err(a2.msg);
    }
    var m := new MoveLast(caller, a1.value, a2.value);
    r := Ok(m);
  }

  // ---------------------------------------------------------------- rename

  /**
   * The end state of the second half of a rename: `base` was read at `q` in the
   * container's tree `tree`; it is detached there, attached at `target`, and the
   * new tree written back through the container.
   */
  twostate predicate Reattached(c: Container, tree: Option<Tag>, q: Query, target: Query, base: Option<Tag>, caller: Caller, r: Run)
    reads StoreOf(c), caller
  {
    var s := StoreOf(c);
    caller.held == old(caller.held) &&
    if base.None? then
      r == Completed && s.root == old(s.root) &&
      caller.sent == old(caller.sent) + [FailRename] && caller.shown == old(caller.shown)
    else
      var detached := Remove(tree, q);
      var attached := if detached.Found? then Set(detached.value, target, base) else TagNotFound;
      var w := if attached.Found? then WriteCustomIn(c, old(s.root), attached.value) else Err(TagMissing);
      if detached.TagNotFound? then
        r == Raised(TagMissing) && s.root == old(s.root) && caller.sent == old(caller.sent) && caller.shown == old(caller.shown)
      else if attached.QueryError? then
        r == Raised(attached.msg) && s.root == old(s.root) && caller.sent == old(caller.sent) && caller.shown == old(caller.shown)
      else if w.Err? then
        r == Raised(w.msg) && s.root == old(s.root) && caller.sent == old(caller.sent) && caller.shown == old(caller.shown)
      else
        r == Completed && s.root == w.value &&
        caller.sent == old(caller.sent) + [SuccessRename] && caller.shown == old(caller.shown) + [base]
  }

  /**
   * The end state of renaming the node at `q` below `c` to `name` (its query
   * `q2`): the new place is the old one's parent followed by `q2`; the empty query
   * has no parent, and a node that is not there is an error.
   */
  twostate predicate Renamed(c: Container, q: Query, q2: Query, caller: Caller, r: Run)
    reads StoreOf(c), caller
  {
    var s := StoreOf(c);
    match Parent(q)
    case None =>
      r == Raised(NullPointer) && s.root == old(s.root) && unchanged(caller)
    case Some(parent) =>
      var tree := TagIn(c, old(s.root));
      var got := Get(tree, q);
      if got.Found? then Reattached(c, tree, q, parent + q2, got.value, caller, r)
      else r == Raised(TagMissing) && s.root == old(s.root) && unchanged(caller)
  }

  /** The second half of `ActionRename.execute`, from the value read at `q`. */
  method Reattach(c: Container, tree: Option<Tag>, q: Query, target: Query, base: Option<Tag>, caller: Caller) returns (r: Run)
    requires tree == TagIn(c, StoreOf(c).root)
    modifies StoreOf(c), caller
    ensures Reattached(c, tree, q, target, base, caller, r)
  {
    assert allocated(StoreOf(c));  // the stores the calls below leave alone keep their roots
    if base.None? {
      caller.Send(FailRename);
      return Completed;
    }
    var detached := Remove(tree, q);
    if !detached.Found? {
      return Raised(TagMissing);
    }
    var attached := Set(detached.value, target, base);
    if attached.QueryError? {
      return Raised(attached.msg);
    }
    var w := WriteCustomTag(c, attached.value);
    if w.Err? {
      return Raised(w.msg);
    }
    caller.SendValue(SuccessRename, base);
    r := Completed;
  }

  /** The body of `ActionRename.execute` once the argument holds a container. */
  method Rename(c: Container, q: Query, q2: Query, caller: Caller) returns (r: Run)
    modifies StoreOf(c), caller
    ensures Renamed(c, q, q2, caller, r)
  {
    var parent := Parent(q);
    if parent.None? {
      return Raised(NullPointer);
    }
    var target := parent.value + q2;
    var tree := TagIn(c, StoreOf(c).root);
    var base := Get(tree, q);
    if !base.Found? {
      return Raised(TagMissing);
    }
    r := Reattach(c, tree, q, target, base.value, caller);
  }

  class Renaming {
    const caller: Caller
    const arg1: Argument
    const name: string
    const query2: Query

    predicate Valid()
      reads this, arg1
    {
      arg1.caller == caller && arg1.Valid()
    }

    /** `new ActionRename(caller, o1, q1, name)` once the argument is made: the new name is read as a query. */
    constructor (caller: Caller, arg1: Argument, name: string, fromString: Option<string> -> Query)
      ensures this.caller == caller && this.arg1 == arg1 && this.name == name && query2 == fromString(Some(name))
    {
      this.caller := caller;
      this.arg1 := arg1;
      this.name := name;
      query2 := fromString(Some(name));
    }

    /** `execute()`: prepares what is deferred, or renames the node. */
    method Execute(env: Env) returns (r: Run)
      requires Valid()
      modifies arg1, caller, Holds(arg1)
      ensures Valid()
      ensures old(arg1.NeedPrepare()) ==> r.Preparing? && Gated1(arg1, env, r.prepared)
      ensures old(!arg1.NeedPrepare()) ==>
        unchanged(arg1) && Renamed(old(arg1.container.value), old(arg1.query.value), query2, caller, r)
    {
      if arg1.NeedPrepare() {
        var p := arg1.Prepare(None, env);
        return Preparing(p);
      }
      r := Rename(arg1.container.value, arg1.query.value, query2, caller);
    }
  }

  /** `new ActionRename(caller, o1, q1, name)`. */
  method MakeRenaming(caller: Caller, o1: Option<string>, q1: Option<string>, name: string, env: Env) returns (r: Result<Renaming>)
    ensures r.Err? <==> Fails(o1, q1, env)
    ensures r.Ok? ==> fresh(r.value) && fresh(r.value.arg1) && r.value.caller == caller && r.value.Valid()
    ensures r.Ok? ==> r.value.name == name && r.value.query2 == env.fromString(Some(name))
  {
    var a := Make(caller, o1, q1, env);
    if a.Err? {
      return Err(a.msg);
    }
    var n := new Renaming(caller, a.value, name, env.fromString);
    r := Ok(n);
  }

  // ---------------------------------------------------------------- edit

  /**
   * The end state of writing the value at `q2` below `c2` to `q1` below `c1`; a
   * failing write is reported naming the target and writes nothing.
   */
  twostate predicate Edited(c1: Container, q1: Query, c2: Container, q2: Query, caller: Caller, r: Run)
    reads StoreOf(c1), StoreOf(c2), caller
  {
    var s1, s2 := StoreOf(c1), StoreOf(c2);
    var base := ValueAt(c2, old(s2.root), q2);
    var w := WriteCustomIn(Compose(c1, q1), old(s1.root), base);
    caller.held == old(caller.held) && (s1 != s2 ==> s2.root == old(s2.root)) &&
    if w.Err? then
      r == RaisedAt(FailEdit, q1) && s1.root == old(s1.root) &&
      caller.sent == old(caller.sent) && caller.shown == old(caller.shown)
    else
      r == Completed && s1.root == w.value &&
      caller.sent == old(caller.sent) + [SuccessEdit] && caller.shown == old(caller.shown) + [base]
  }

  /** The body of `ActionEdit.execute` once both arguments hold a container. */
  method Overwrite(c1: Container, q1: Query, c2: Container, q2: Query, caller: Caller) returns (r: Run)
    modifies StoreOf(c1), caller
    ensures Edited(c1, q1, c2, q2, caller, r)
  {
    assert allocated(StoreOf(c1)) && allocated(StoreOf(c2));  // the stores the calls below leave alone keep their roots
    var base := ValueAt(c2, StoreOf(c2).root, q2);
    var w := SetAt(c1, q1, base);
    if w.Err? {
      return RaisedAt(FailEdit, q1);
    }
    caller.SendValue(SuccessEdit, base);
    r := Completed;
  }

  class Edit {
    const caller: Caller
    const arg1: Argument
    const arg2: Argument

    predicate Valid()
      reads this, arg1, arg2
    {
      arg1 != arg2 && arg1.caller == caller && arg2.caller == caller && arg1.Valid() && arg2.Valid()
    }

    constructor (caller: Caller, arg1: Argument, arg2: Argument)
      ensures this.caller == caller && this.arg1 == arg1 && this.arg2 == arg2
    {
      this.caller := caller;
      this.arg1 := arg1;
      this.arg2 := arg2;
    }

    /** `execute()`: prepares what is deferred, or writes the second value at the first place. */
    method Execute(env: Env) returns (r: Run)
      requires Valid()
      modifies arg1, arg2, caller, Holds(arg1)
      ensures Valid()
      ensures old(arg1.NeedPrepare() || arg2.NeedPrepare()) ==> r.Preparing? && Gated2(arg1, arg2, env, r.prepared)
      ensures old(!arg1.NeedPrepare() && !arg2.NeedPrepare()) ==>
        unchanged(arg1, arg2) &&
        Edited(old(arg1.container.value), old(arg1.query.value), old(arg2.container.value), old(arg2.query.value), caller, r)
    {
      if arg1.NeedPrepare() {
        var p := arg1.Prepare(None, env);
        return Preparing(p);
      }
      if arg2.NeedPrepare() {
        var p := arg2.Prepare(Some(Context(arg1.container.value, arg1.query.value)), env);
        return Preparing(p);
      }
      r := Overwrite(arg1.container.value, arg1.query.value, arg2.container.value, arg2.query.value, caller);
    }
  }

  /** `new ActionEdit(caller, o1, q1, o2, q2)`. */
  method MakeEdit(caller: Caller, o1: Option<string>, q1: Option<string>, o2: Option<string>, q2: Option<string>, env: Env)
    returns (r: Result<Edit>)
    ensures r.Err? <==> Fails(o1, q1, env) || Fails(o2, q2, env)
    ensures r.Ok? ==> fresh(r.value) && fresh(r.value.arg1) && fresh(r.value.arg2) && r.value.caller == caller && r.value.Valid()
  {
    var a1 := Make(caller, o1, q1, env);
    if a1.Err? {
      return Err(a1.msg);
    }
    var a2 := Make(caller, o2, q2, env);
    if a2.Err? {
      return Err(a2.msg);
    }
    var e := new Edit(caller, a1.value, a2.value);
    r := Ok(e);
  }

  // ---------------------------------------------------------------- cut and copy

  /**
   * The end state of cutting the value at `q` below `c`: no value is an error;
   * otherwise the clipboard takes it and it is erased after, from the clipboard
   * itself when `c` is the clipboard.
   */
  twostate predicate CutOut(c: Container, q: Query, caller: Caller, r: Run)
    reads StoreOf(c), caller, caller.buffer
  {
    var s, b := StoreOf(c), caller.buffer;
    var base := ValueAt(c, old(s.root), q);
    var mid := if s == b then base else old(s.root);
    var e := EraseIn(Compose(c, q), mid);
    caller.held == old(caller.held) &&
    if base.None? then
      r == Raised(ErrorNull) && s.root == old(s.root) && b.root == old(b.root) &&
      caller.sent == old(caller.sent) && caller.shown == old(caller.shown)
    else
      caller.sent == old(caller.sent) + [SuccessCut] && caller.shown == old(caller.shown) + [base] &&
      if e.Err? then
        r == Raised(e.msg) && s.root == mid && b.root == base
      else
        r == Completed && s.root == e.value && (s != b ==> b.root == base)
  }

  /** The body of `ActionCut.execute` once the argument holds a container. */
  method Clip(c: Container, q: Query, caller: Caller) returns (r: Run)
    modifies StoreOf(c), caller, caller.buffer
    ensures CutOut(c, q, caller, r)
  {
    assert allocated(StoreOf(c));  // the stores the calls below leave alone keep their roots
    var base := ValueAt(c, StoreOf(c).root, q);
    if base.None? {
      return Raised(ErrorNull);
    }
    caller.Keep(base);
    caller.SendValue(SuccessCut, base);
    var e := RemoveAt(c, q);
    if e.Err? {
      return Raised(e.msg);
    }
    r := Completed;
  }

  class Cut {
    const caller: Caller
    const arg: Argument

    predicate Valid()
      reads this, arg
    {
      arg.caller == caller && arg.Valid()
    }

    constructor (caller: Caller, arg: Argument)
      ensures this.caller == caller && this.arg == arg
    {
      this.caller := caller;
      this.arg := arg;
    }

    /** `execute()`: prepares what is deferred, or moves the value to the clipboard. */
    method Execute(env: Env) returns (r: Run)
      requires Valid()
      modifies arg, caller, caller.buffer, Holds(arg)
      ensures Valid()
      ensures old(arg.NeedPrepare()) ==> r.Preparing? && Gated1(arg, env, r.prepared) && unchanged(caller.buffer)
      ensures old(!arg.NeedPrepare()) ==>
        unchanged(arg) && CutOut(old(arg.container.value), old(arg.query.value), caller, r)
    {
      if arg.NeedPrepare() {
        var p := arg.Prepare(None, env);
        return Preparing(p);
      }
      r := Clip(arg.container.value, arg.query.value, caller);
    }
  }

  /** `new ActionCut(caller, o1, q1)`. */
  method MakeCut(caller: Caller, o1: Option<string>, q1: Option<string>, env: Env) returns (r: Result<Cut>)
    ensures r.Err? <==> Fails(o1, q1, env)
    ensures r.Ok? ==> fresh(r.value) && fresh(r.value.arg) && r.value.caller == caller && r.value.Valid()
  {
    var a := Make(caller, o1, q1, env);
    if a.Err? {
      return Err(a.msg);
    }
    var t := new Cut(caller, a.value);
    r := Ok(t);
  }

  /** The end state of copying the value at `q` below `c`: the clipboard takes it, even when there is none. */
  twostate predicate CopiedOut(c: Container, q: Query, caller: Caller, r: Run)
    reads StoreOf(c), caller, caller.buffer
  {
    var s, b := StoreOf(c), caller.buffer;
    var base := ValueAt(c, old(s.root), q);
    r == Completed && b.root == base && (s != b ==> s.root == old(s.root)) &&
    caller.sent == old(caller.sent) + [SuccessCopied] && caller.shown == old(caller.shown) + [base] &&
    caller.held == old(caller.held)
  }

  /** The body of `ActionCopy.execute` once the argument holds a container. */
  method Duplicate(c: Container, q: Query, caller: Caller) returns (r: Run)
    modifies caller, caller.buffer
    ensures CopiedOut(c, q, caller, r)
  {
    assert allocated(StoreOf(c));  // the stores the calls below leave alone keep their roots
    var base := ValueAt(c, StoreOf(c).root, q);
    caller.Keep(base);
    caller.SendValue(SuccessCopied, base);
    r := Completed;
  }

  class Copy {
    const caller: Caller
    const arg: Argument

    predicate Valid()
      reads this, arg
    {
      arg.caller == caller && arg.Valid()
    }

    constructor (caller: Caller, arg: Argument)
      ensures this.caller == caller && this.arg == arg
    {
      this.caller := caller;
      this.arg := arg;
    }

    /** `execute()`: prepares what is deferred, or copies the value to the clipboard. */
    method Execute(env: Env) returns (r: Run)
      requires Valid()
      modifies arg, caller, caller.buffer
      ensures Valid()
      ensures old(arg.NeedPrepare()) ==> r.Preparing? && Gated1(arg, env, r.prepared) && unchanged(caller.buffer)
      ensures old(!arg.NeedPrepare()) ==>
        unchanged(arg) && CopiedOut(old(arg.container.value), old(arg.query.value), caller, r)
    {
      if arg.NeedPrepare() {
        var p := arg.Prepare(None, env);
        return Preparing(p);
      }
      r := Duplicate(arg.container.value, arg.query.value, caller);
    }
  }

  /** `new ActionCopy(caller, object, query)`. */
  method MakeCopy(caller: Caller, o1: Option<string>, q1: Option<string>, env: Env) returns (r: Result<Copy>)
    ensures r.Err? <==> Fails(o1, q1, env)
    ensures r.Ok? ==> fresh(r.value) && fresh(r.value.arg) && r.value.caller == caller && r.value.Valid()
  {
    var a := Make(caller, o1, q1, env);
    if a.Err? {
      return Err(a.msg);
    }
    var t := new Copy(caller, a.value);
    r := Ok(t);
  }
}

module ActionFacts {
  import opened Tags
  import opened NbtQuery
  import opened NbtQueryFacts
  import opened Containers
  import opened ContainerFacts
  import opened Actions

  /**
   * Swapping between two stores exchanges the values: each place then reads what
   * the other one held.
   */
  lemma {:induction false} SwapExchanges(c1: Container, root1: Option<Tag>, q1: Query, c2: Container, root2: Option<Tag>, q2: Query)
    requires var b1, b2 := ValueAt(c1, root1, q1), ValueAt(c2, root2, q2);
      Put(c1, root1, q1, b2).Ok? && Put(c2, root2, q2, b1).Ok? &&
      (b2.Some? || KeyEnded(q1)) && (b1.Some? || KeyEnded(q2))
    ensures ValueAt(c1, Put(c1, root1, q1, ValueAt(c2, root2, q2)).value, q1) == ValueAt(c2, root2, q2)
    ensures ValueAt(c2, Put(c2, root2, q2, ValueAt(c1, root1, q1)).value, q2) == ValueAt(c1, root1, q1)
  {
  }

  /**
   * A move between two stores: once the value was written at the target, erasing
   * it at a non-empty source cannot fail; the target then reads the value, and a
   * source that ends with a key reads nothing.
   */
  lemma {:induction false} MoveRelocates(c1: Container, root1: Option<Tag>, q1: Query, c2: Container, root2: Option<Tag>, q2: Query)
    requires ValueAt(c1, root1, q1).Some? && q1 != []
    requires WriteCustomIn(Compose(c2, q2), root2, ValueAt(c1, root1, q1)).Ok?
    ensures ValueAt(c2, WriteCustomIn(Compose(c2, q2), root2, ValueAt(c1, root1, q1)).value, q2) == ValueAt(c1, root1, q1)
    ensures EraseIn(Compose(c1, q1), root1).Ok?
    ensures KeyEnded(q1) ==> ValueAt(c1, EraseIn(Compose(c1, q1), root1).value, q1) == None
  {
    EraseFound(c1, root1, q1);
  }

  /**
   * Rename: the node found at `q` is detached and then found at `target`; when the
   * old place ends with a key and neither path extends the other, nothing is left
   * at the old place.
   */
  lemma {:induction false} RenameMoves(tree: Option<Tag>, q: Query, target: Query, b: Tag)
    requires Get(tree, q) == Found(Some(b))
    ensures Remove(tree, q).Found?
    ensures var moved := Set(Remove(tree, q).value, target, Some(b));
      moved.Found? ==>
        Get(moved.value, target) == Found(Some(b)) &&
        (KeyEnded(q) && FromFront(q) && FromFront(target) && !(q <= target) && !(target <= q) ==>
           Get(moved.value, q) == TagNotFound)
  {
    RemoveNeedsPath(tree, q);
    var detached := Remove(tree, q).value;
    var moved := Set(detached, target, Some(b));
    if moved.Found? {
      SetThenGet(detached, target, Some(b));
      if KeyEnded(q) && FromFront(q) && FromFront(target) && !(q <= target) && !(target <= q) {
        SetElsewhere(detached, target, q, Some(b));
        RemoveThenGet(tree, q);
      }
    }
  }

  /**
   * Cut: a value that reads through a view below a non-empty query can be erased
   * there, and once a key is erased nothing is read there.
   */
  lemma {:induction false} EraseFound(c: Container, root: Option<Tag>, q: Query)
    requires ValueAt(c, root, q).Some? && q != []
    ensures EraseIn(Compose(c, q), root).Ok?
    ensures KeyEnded(q) ==> ValueAt(c, EraseIn(Compose(c, q), root).value, q) == None
  {
    var tree := TagIn(c, root);
    assert Get(tree, q).Found?;
    assert tree.Some?;
    ReadThroughChain(c, root);
    RemoveNeedsPath(tree, q);
    WriteAlongPath(c, root, Remove(tree, q).value);
  }
}
