/** Turning registered host exceptions into guest classes, along the chain of their bases. */
module Exceptions {
  import opened Wrappers

  datatype Key = Named(module_: string, name: string) | Typed(id: nat, name: string)

  datatype ExceptionClass =
    | Builtin(name: string)
    | Host(module_: string, name: string)
    | Guest(module_: string, qualname: string)
    | OfType(id: nat, name: string)

  function KeyOf(class_: ExceptionClass): Option<Key> {
    match class_
    case Host(m, n) => Some(Named(m, n))
    case OfType(id, n) => Some(Typed(id, n))
    case _ => None
  }

  type Ref = nat

  datatype BaseRef = BuiltinRef(name: string) | Made(ref: Ref)

  datatype Object = Object(key: Key, base: BaseRef)

  datatype Error = NotRegistered(key: Key) | GuestBase(key: Key) | NotAnException(name: string) | Refused(key: Key)

  // The builtins that are exception classes, and the keys the guest refuses to create.
  datatype Env = Env(exceptions: set<string>, refused: set<Key>)

  datatype Cache = Cache(
    specs: map<Key, ExceptionClass>, realised: map<Key, Ref>, heap: seq<Object>, created: multiset<Key>)

  // The registered bases are acyclic: each step to a registered base goes down.
  ghost predicate Acyclic(specs: map<Key, ExceptionClass>, rank: map<Key, nat>) {
    forall k :: k in specs ==>
      k in rank
      && (KeyOf(specs[k]).Some? && KeyOf(specs[k]).value in specs ==>
           KeyOf(specs[k]).value in rank && rank[KeyOf(specs[k]).value] < rank[k])
  }

  ghost function Height(specs: map<Key, ExceptionClass>, rank: map<Key, nat>, key: Key): nat
    requires Acyclic(specs, rank)
  {
    if key in specs then rank[key] + 1 else 0
  }

  function BaseOf(env: Env, key: Key, class_: ExceptionClass): Result<BaseRef, Error> {
    match class_
    case Builtin(name) => if name in env.exceptions then Ok(BuiltinRef(name)) else Err(NotAnException(name))
    case _ => Err(GuestBase(key))
  }

  function Create(env: Env, c: Cache, key: Key, base: BaseRef): (Cache, Result<Ref, Error>) {
    if key in env.refused then (c, Err(Refused(key)))
    else
      (c.(heap := c.heap + [Object(key, base)], realised := c.realised[key := |c.heap|],
          created := c.created + multiset{key}),
       Ok(|c.heap|))
  }

  function Realise(env: Env, c: Cache, ghost rank: map<Key, nat>, key: Key): (r: (Cache, Result<Ref, Error>))
    requires Acyclic(c.specs, rank)
    ensures r.0.specs == c.specs
    decreases Height(c.specs, rank, key)
  {
    if key in c.realised then (c, Ok(c.realised[key]))
    else if key !in c.specs then (c, Err(NotRegistered(key)))
    else
      match KeyOf(c.specs[key])
      case Some(base) =>
        var (c1, made) := Realise(env, c, rank, base);
        (match made
         case Err(error) => (c1, Err(error))
         case Ok(ref) => Create(env, c1, key, Made(ref)))
      case None =>
        match BaseOf(env, key, c.specs[key])
        case Err(error) => (c, Err(error))
        case Ok(base) => Create(env, c, key, base)
  }

  // The first thing that goes wrong when the chain is created from scratch, bases first.
  function FirstError(env: Env, specs: map<Key, ExceptionClass>, ghost rank: map<Key, nat>, key: Key): Option<Error>
    requires Acyclic(specs, rank)
    decreases Height(specs, rank, key)
  {
    if key !in specs then Some(NotRegistered(key))
    else
      var base := match KeyOf(specs[key])
        case Some(base) => FirstError(env, specs, rank, base)
        case None => (match BaseOf(env, key, specs[key]) case Err(error) => Some(error) case Ok(_) => None);
      if base.Some? then base else if key in env.refused then Some(Refused(key)) else None
  }

  // The object made for a key is its own, with the builtin or the memoised object of its base.
  ghost predicate Faithful(c: Cache, key: Key)
    requires key in c.realised && key in c.specs
  {
    && c.realised[key] < |c.heap| && c.heap[c.realised[key]].key == key
    && var base := c.heap[c.realised[key]].base;
      match c.specs[key]
      case Builtin(name) => base == BuiltinRef(name)
      case Guest(_, _) => false
      case class_ => KeyOf(class_).value in c.realised && base == Made(c.realised[KeyOf(class_).value])
  }

  ghost predicate Inv(env: Env, c: Cache, rank: map<Key, nat>) {
    && Acyclic(c.specs, rank)
    && (forall k :: k in c.realised ==> k in c.specs && Faithful(c, k) && FirstError(env, c.specs, rank, k).None?)
    && (forall k :: c.created[k] == if k in c.realised then 1 else 0)
  }

  ghost predicate Grows(c: Cache, d: Cache) {
    && d.specs == c.specs && |c.heap| <= |d.heap| && d.heap[..|c.heap|] == c.heap
    && (forall k :: k in c.realised ==> k in d.realised && d.realised[k] == c.realised[k])
  }

  ghost predicate Outcome(env: Env, c: Cache, rank: map<Key, nat>, key: Key, d: Cache, r: Result<Ref, Error>)
    requires Acyclic(c.specs, rank)
  {
    && Inv(env, d, rank) && Grows(c, d)
    && (match r
        case Err(error) => FirstError(env, c.specs, rank, key) == Some(error)
        case Ok(ref) => FirstError(env, c.specs, rank, key) == None && key in d.realised && d.realised[key] == ref)
  }

  lemma {:induction false} FaithfulStays(c: Cache, d: Cache, k: Key)
    requires k in c.realised && k in c.specs && Faithful(c, k) && Grows(c, d)
    ensures Faithful(d, k)
  {
    assert d.heap[..|c.heap|][c.realised[k]] == c.heap[c.realised[k]];
  }

  lemma {:induction false} CreateKeepsInv(env: Env, c: Cache, rank: map<Key, nat>, key: Key, base: BaseRef)
    requires Inv(env, c, rank) && key in c.specs && key !in c.realised
    requires match c.specs[key]
             case Builtin(name) => base == BuiltinRef(name)
             case Guest(_, _) => false
             case class_ => KeyOf(class_).value in c.realised && base == Made(c.realised[KeyOf(class_).value])
    requires FirstError(env, c.specs, rank, key) == if key in env.refused then Some(Refused(key)) else None
    ensures var (d, r) := Create(env, c, key, base); Outcome(env, c, rank, key, d, r)
  {
    var d := Create(env, c, key, base).0;
    hide Acyclic, FirstError;
    assert Grows(c, d);
    if key !in env.refused {
      assert Faithful(d, key);
      forall k | k in c.realised
        ensures Faithful(d, k)
      {
        FaithfulStays(c, d, k);
      }
    }
    hide Faithful;
  }

  // Realising a key agrees with creating its whole chain from scratch: it fails exactly when and as
  // that would, and otherwise gives the memoised object.
  lemma {:induction false} Realised(env: Env, c: Cache, rank: map<Key, nat>, key: Key)
    requires Inv(env, c, rank)
    ensures var (d, r) := Realise(env, c, rank, key); Outcome(env, c, rank, key, d, r)
    decreases Height(c.specs, rank, key)
  {
    hide Inv, Outcome, FirstError;
    InvAcyclic(env, c, rank);
    if key !in c.realised && key in c.specs && KeyOf(c.specs[key]).Some? {
      Realised(env, c, rank, KeyOf(c.specs[key]).value);
      OnBase(env, c, rank, key);
    } else {
      WithoutBase(env, c, rank, key);
    }
  }

  lemma {:induction false} InvAcyclic(env: Env, c: Cache, rank: map<Key, nat>)
    requires Inv(env, c, rank)
    ensures Acyclic(c.specs, rank)
  {
  }

  lemma {:induction false} WithoutBase(env: Env, c: Cache, rank: map<Key, nat>, key: Key)
    requires Inv(env, c, rank) && (key in c.realised || key !in c.specs || KeyOf(c.specs[key]).None?)
    ensures var (d, r) := Realise(env, c, rank, key); Outcome(env, c, rank, key, d, r)
  {
    if key in c.realised || key !in c.specs || BaseOf(env, key, c.specs[key]).Err? {
      hide Faithful;
      assert Grows(c, c);
    } else {
      CreateKeepsInv(env, c, rank, key, BaseOf(env, key, c.specs[key]).value);
      hide Inv, Outcome, FirstError;
    }
  }

  lemma {:induction false} OnBase(env: Env, c: Cache, rank: map<Key, nat>, key: Key)
    requires Inv(env, c, rank) && key !in c.realised && key in c.specs && KeyOf(c.specs[key]).Some?
    requires var base := KeyOf(c.specs[key]).value;
             var (c1, made) := Realise(env, c, rank, base);
             Outcome(env, c, rank, base, c1, made)
    ensures var (d, r) := Realise(env, c, rank, key); Outcome(env, c, rank, key, d, r)
  {
    var base := KeyOf(c.specs[key]).value;
    var (c1, made) := Realise(env, c, rank, base);
    NotItsOwnBase(env, c, rank, key, base);
    if made.Ok? {
      CreateKeepsInv(env, c1, rank, key, Made(made.value));
      GrowsTrans(c, c1, Create(env, c1, key, Made(made.value)).0);
    }
    hide Inv, Faithful, Grows, Create;
  }

  lemma {:induction false} GrowsTrans(c: Cache, d: Cache, e: Cache)
    requires Grows(c, d) && Grows(d, e)
    ensures Grows(c, e)
  {
    assert e.heap[..|c.heap|] == e.heap[..|d.heap|][..|c.heap|];
  }

  // Realising a base leaves everything above it alone.
  lemma {:induction false} NotItsOwnBase(env: Env, c: Cache, rank: map<Key, nat>, key: Key, base: Key)
    requires Acyclic(c.specs, rank) && key in c.specs && key !in c.realised
    requires base in c.specs ==> rank[base] < rank[key]
    ensures key !in Realise(env, c, rank, base).0.realised
    decreases Height(c.specs, rank, base)
  {
    if base !in c.realised && base in c.specs && KeyOf(c.specs[base]).Some? {
      NotItsOwnBase(env, c, rank, key, KeyOf(c.specs[base]).value);
    }
  }

  function Run(env: Env, specs: map<Key, ExceptionClass>, ghost rank: map<Key, nat>, keys: seq<Key>): (c: Cache)
    requires Acyclic(specs, rank)
    ensures c.specs == specs
  {
    if keys == [] then Cache(specs, map[], [], multiset{})
    else Realise(env, Run(env, specs, rank, keys[..|keys| - 1]), rank, keys[|keys| - 1]).0
  }

  lemma {:induction false} RunKeepsInv(env: Env, specs: map<Key, ExceptionClass>, rank: map<Key, nat>, keys: seq<Key>)
    requires Acyclic(specs, rank)
    ensures Inv(env, Run(env, specs, rank, keys), rank)
  {
    if keys != [] {
      RunKeepsInv(env, specs, rank, keys[..|keys| - 1]);
      Realised(env, Run(env, specs, rank, keys[..|keys| - 1]), rank, keys[|keys| - 1]);
    }
  }

  // The object is the class of the key, and its base that of the base, down to a builtin.
  ghost predicate Represents(
    specs: map<Key, ExceptionClass>, rank: map<Key, nat>, heap: seq<Object>, ref: Ref, key: Key)
    requires Acyclic(specs, rank)
    decreases Height(specs, rank, key)
  {
    && key in specs && ref < |heap| && heap[ref].key == key
    && (match specs[key]
        case Builtin(name) => heap[ref].base == BuiltinRef(name)
        case Guest(_, _) => false
        case class_ =>
          heap[ref].base.Made? && Represents(specs, rank, heap, heap[ref].base.ref, KeyOf(class_).value))
  }

  lemma {:induction false} MemoRepresents(env: Env, c: Cache, rank: map<Key, nat>, key: Key)
    requires Inv(env, c, rank) && key in c.realised
    ensures Represents(c.specs, rank, c.heap, c.realised[key], key)
    decreases Height(c.specs, rank, key)
  {
    hide FirstError;
    assert Faithful(c, key);
    if KeyOf(c.specs[key]).Some? {
      MemoRepresents(env, c, rank, KeyOf(c.specs[key]).value);
    }
  }

  // However often and in whatever order exceptions are asked for, each class is created at most once,
  // every answer is the one the chain of bases alone determines, and the class answered unfolds to
  // that chain.
  lemma {:induction false} EveryRun(
    env: Env, specs: map<Key, ExceptionClass>, rank: map<Key, nat>, keys: seq<Key>, key: Key)
    requires Acyclic(specs, rank)
    ensures var c := Run(env, specs, rank, keys);
            var (d, r) := Realise(env, c, rank, key);
            && (forall k :: d.created[k] <= 1)
            && (r.Ok? <==> FirstError(env, specs, rank, key).None?)
            && (r.Err? ==> FirstError(env, specs, rank, key) == Some(r.error))
            && (r.Ok? ==> Represents(specs, rank, d.heap, r.value, key))
            && (key in c.realised ==> r == Ok(c.realised[key]) && d == c)
  {
    RunKeepsInv(env, specs, rank, keys);
    var c := Run(env, specs, rank, keys);
    Realised(env, c, rank, key);
    var (d, r) := Realise(env, c, rank, key);
    hide Run, FirstError, Acyclic, Faithful, Represents;
    if r.Ok? {
      MemoRepresents(env, d, rank, key);
    }
  }

  // ----- the chain of bases -------------------------------------------------------------------

  // A class of the host stands for the registered exception of its key.
  predicate StandsFor(class_: ExceptionClass, key: Key) {
    match key
    case Named(m, n) => class_ == Host(m, n)
    case Typed(id, n) => class_ == OfType(id, n)
  }

  // Each key but the last is registered with the next one as its base.
  predicate Descends(specs: map<Key, ExceptionClass>, path: seq<Key>) {
    forall i :: 0 <= i < |path| - 1 ==> path[i] in specs && StandsFor(specs[path[i]], path[i + 1])
  }

  // The last key is not registered, or its base is a builtin or a guest class.
  predicate WholeChain(specs: map<Key, ExceptionClass>, path: seq<Key>) {
    && path != [] && Descends(specs, path)
    && var last := path[|path| - 1];
       last in specs ==> specs[last].Builtin? || specs[last].Guest?
  }

  // What is wrong at the end of the chain.
  function EndError(env: Env, specs: map<Key, ExceptionClass>, last: Key): Option<Error>
    requires last in specs ==> specs[last].Builtin? || specs[last].Guest?
  {
    if last !in specs then Some(NotRegistered(last))
    else if specs[last].Guest? then Some(GuestBase(last))
    else if specs[last].name !in env.exceptions then Some(NotAnException(specs[last].name))
    else None
  }

  // Of the refused keys of the chain, the one nearest its end.
  predicate LastRefused(env: Env, path: seq<Key>, i: nat) {
    i < |path| && path[i] in env.refused && forall k :: i < k < |path| ==> path[k] !in env.refused
  }

  lemma {:induction false} ChainExists(specs: map<Key, ExceptionClass>, rank: map<Key, nat>, key: Key)
    returns (path: seq<Key>)
    requires Acyclic(specs, rank)
    ensures WholeChain(specs, path) && path[0] == key
    decreases Height(specs, rank, key)
  {
    if key in specs && KeyOf(specs[key]).Some? {
      var rest := ChainExists(specs, rank, KeyOf(specs[key]).value);
      path := [key] + rest;
    } else {
      path := [key];
    }
  }

  // The end of the chain is looked at first, and then its keys from the end on: the refused key nearest the
  // end gives the error, and without one the class is made.
  lemma {:induction false} ChainDecides(
    env: Env, specs: map<Key, ExceptionClass>, rank: map<Key, nat>, path: seq<Key>)
    requires Acyclic(specs, rank) && WholeChain(specs, path)
    ensures var last := path[|path| - 1];
            var error := FirstError(env, specs, rank, path[0]);
            if EndError(env, specs, last).Some? then error == EndError(env, specs, last)
            else
              && (error.None? <==> forall i :: 0 <= i < |path| ==> path[i] !in env.refused)
              && (error.Some? ==> exists i: nat :: LastRefused(env, path, i) && error == Some(Refused(path[i])))
    decreases |path|
  {
    if |path| > 1 {
      var rest := path[1..];
      ChainDecides(env, specs, rank, rest);
      assert KeyOf(specs[path[0]]) == Some(path[1]);
      assert forall i :: 0 <= i < |rest| ==> rest[i] == path[i + 1];
      assert forall i :: 1 <= i < |path| ==> path[i] == rest[i - 1];
      if i: nat :| LastRefused(env, rest, i) {
        assert LastRefused(env, path, i + 1);
      }
      assert path[0] in env.refused && (forall i :: 0 <= i < |rest| ==> rest[i] !in env.refused) ==>
          LastRefused(env, path, 0);
    } else {
      assert path[0] in env.refused ==> LastRefused(env, path, 0);
    }
  }

  // The memo of exception classes, written as the recursion returns.
  class ExceptionRealiser {
    const specs: map<Key, ExceptionClass>
    var realised: map<Key, Ref>
    var heap: seq<Object>
    ghost var created: multiset<Key>

    constructor (specs: map<Key, ExceptionClass>)
      ensures Snap() == Cache(specs, map[], [], multiset{}) && this.specs == specs
    {
      this.specs, realised, heap := specs, map[], [];
      created := multiset{};
    }

    ghost function Snap(): Cache
      reads this
    {
      Cache(specs, realised, heap, created)
    }

    method CreateClass(env: Env, key: Key, base: BaseRef) returns (r: Result<Ref, Error>)
      modifies this
      ensures (Snap(), r) == Create(env, old(Snap()), key, base)
    {
      if key in env.refused {
        return Err(Refused(key));
      }
      var ref := |heap|;
      heap := heap + [Object(key, base)];
      created := created + multiset{key};
      realised := realised[key := ref];
      return Ok(ref);
    }

    method HostException(env: Env, ghost rank: map<Key, nat>, key: Key) returns (r: Result<Ref, Error>)
      requires Acyclic(specs, rank)
      modifies this
      ensures (Snap(), r) == Realise(env, old(Snap()), rank, key)
      decreases Height(specs, rank, key)
    {
      hide Create;
      if key in realised {
        return Ok(realised[key]);
      }
      if key !in specs {
        return Err(NotRegistered(key));
      }
      var baseKey := KeyOf(specs[key]);
      if baseKey.Some? {
        var base := HostException(env, rank, baseKey.value);
        if base.Err? {
          return base;
        }
        r := CreateClass(env, key, Made(base.value));
      } else {
        var base := BaseOf(env, key, specs[key]);
        if base.Err? {
          return Err(base.error);
        }
        r := CreateClass(env, key, base.value);
      }
    }
  }
}
