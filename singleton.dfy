/**
  The singleton mixin: classes derived from `Singleton` are instantiated
  only through `get_instance`, which creates the one instance of a class on
  the first call and hands it out afterwards. The module-level registry
  `_st_singletons` records the classes holding an instance, and one class
  instance at a time can be forgotten again, or all of them at once.

  Classes are numbered, each after all of its bases (a class can only be
  defined once its bases exist); `bases(c)` lists the bases of c that are
  themselves subclasses of `Singleton`. Instances are numbered in the
  order `__new__` creates them.
*/
module Singletons {
  import opened Wrappers

  type ClassId = nat
  type Instance = nat

  /** The exception an `__init__` raised. */
  datatype Raised = TypeError(message: string) | OtherException

  /** How a call of `__init__(*args, **kw_args)` ended. */
  datatype InitOutcome = Returned | Raises(e: Raised)

  /** Why a call failed. */
  datatype SingletonError =
    | AlreadyInstantiated         // arguments given to `get_instance` once the instance exists
    | SupplyArgsOnFirstCall       // `__init__` was called with the wrong number of arguments
    | OnlyThroughGetInstance      // the class was called directly
    | CannotOverrideNew           // a class body defines `__new__`
    | Propagated(e: Raised)       // any other exception of `__init__`, passed on unchanged

  // ---------------------------------------------------------------------------
  // `str.find`
  // ---------------------------------------------------------------------------

  predicate At(s: string, pat: string, i: int)
  {
    0 <= i && i + |pat| <= |s| && s[i..i + |pat|] == pat
  }

  /** `s.find(pat)`: the first position where pat occurs in s, or -1. */
  function Find(s: string, pat: string): (r: int)
    ensures r == -1 || At(s, pat, r)
    ensures r == -1 <==> forall i | 0 <= i <= |s| - |pat| :: !At(s, pat, i)
    ensures r != -1 ==> forall i | 0 <= i < r :: !At(s, pat, i)
  {
    if |s| < |pat| then -1
    else if s[..|pat|] == pat then
      assert At(s, pat, 0);
      0
    else
      var k := Find(s[1..], pat);
      AtShift(s, pat);
      if k == -1 then -1 else k + 1
  }

  /** Occurrences in s after its first character are those in s[1..], one position earlier. */
  lemma AtShift(s: string, pat: string)
    requires |s| > 0
    ensures forall i | 1 <= i :: At(s, pat, i) == At(s[1..], pat, i - 1)
  {
    forall i | 1 <= i
      ensures At(s, pat, i) == At(s[1..], pat, i - 1)
    {
      if i + |pat| <= |s| {
        var a, b := s[i..i + |pat|], s[1..][i - 1..i - 1 + |pat|];
        assert |a| == |b| && forall t | 0 <= t < |a| :: a[t] == s[i + t] == b[t];
      }
    }
  }

  const InitTakes := "__init__() takes"

  /** What `_create_singleton_instance` makes of an exception of `__init__`. */
  function InitFailure(e: Raised): (r: SingletonError)
    ensures r == SupplyArgsOnFirstCall <==> e.TypeError? && exists i :: At(e.message, InitTakes, i)
    ensures r != SupplyArgsOnFirstCall ==> r == Propagated(e)
  {
    if e.TypeError? && Find(e.message, InitTakes) != -1 then SupplyArgsOnFirstCall else Propagated(e)
  }

  /** `MetaSingleton.__new__`: a class body defining `__new__` is refused. */
  function Define(definesNew: bool): (r: Result<(), SingletonError>)
    ensures r.Err? <==> definesNew
    ensures r.Err? ==> r.error == CannotOverrideNew
  {
    if definesNew then Err(CannotOverrideNew) else Ok(())
  }

  // ---------------------------------------------------------------------------
  // Forgetting, on values
  // ---------------------------------------------------------------------------

  /** Every class comes after its bases. */
  ghost predicate Hierarchy(bases: ClassId -> seq<ClassId>)
  {
    forall c: ClassId, i | 0 <= i < |bases(c)| :: bases(c)[i] < c
  }

  /**
    The classes still holding an instance after
    `c._forget_class_instance_reference_for_testing()`: c loses its own
    instance if it has one; otherwise deleting the attribute fails and each
    base is told to forget in turn.
  */
  function ForgetKeys(bases: ClassId -> seq<ClassId>, keys: set<ClassId>, c: ClassId): set<ClassId>
    requires Hierarchy(bases)
    decreases c, 1
  {
    if c in keys then keys - {c} else ForgetBases(bases, keys, bases(c), c)
  }

  /** The bases bs told to forget, from the first to the last. */
  function ForgetBases(bases: ClassId -> seq<ClassId>, keys: set<ClassId>, bs: seq<ClassId>, bound: ClassId): set<ClassId>
    requires Hierarchy(bases) && forall b | b in bs :: b < bound
    decreases bound, 0, |bs|
  {
    if bs == [] then keys
    else
      var k := |bs| - 1;
      assert bs[k] in bs && forall b | b in bs[..k] :: b in bs;
      ForgetKeys(bases, ForgetBases(bases, keys, bs[..k], bound), bs[k])
  }

  /** Forgetting never gives a class an instance. */
  lemma {:induction false} ForgetShrinks(bases: ClassId -> seq<ClassId>, keys: set<ClassId>, c: ClassId)
    requires Hierarchy(bases)
    ensures ForgetKeys(bases, keys, c) <= keys
    decreases c, 1
  {
    if c !in keys {
      BasesShrink(bases, keys, bases(c), c);
    }
  }

  lemma {:induction false} BasesShrink(bases: ClassId -> seq<ClassId>, keys: set<ClassId>, bs: seq<ClassId>, bound: ClassId)
    requires Hierarchy(bases) && forall b | b in bs :: b < bound
    ensures ForgetBases(bases, keys, bs, bound) <= keys
    decreases bound, 0, |bs|
  {
    if bs != [] {
      var k := |bs| - 1;
      assert bs[k] in bs && forall b | b in bs[..k] :: b in bs;
      BasesShrink(bases, keys, bs[..k], bound);
      ForgetShrinks(bases, ForgetBases(bases, keys, bs[..k], bound), bs[k]);
    }
  }

  /** A class with an instance of its own loses exactly that one. */
  lemma ForgetOwn(bases: ClassId -> seq<ClassId>, keys: set<ClassId>, c: ClassId)
    requires Hierarchy(bases) && c in keys
    ensures ForgetKeys(bases, keys, c) == keys - {c}
  {
  }

  /**
    A class without an instance of its own, whose one base holds one, makes
    that base forget it: the subclass case of the forgetting test.
  */
  lemma ForgetInherited(bases: ClassId -> seq<ClassId>, keys: set<ClassId>, c: ClassId, b: ClassId)
    requires Hierarchy(bases) && c !in keys && bases(c) == [b] && b in keys
    ensures ForgetKeys(bases, keys, c) == keys - {b}
  {
    var bs := bases(c);
    assert bs[..0] == [] && bs[0] == b && b in bs;
    assert ForgetBases(bases, keys, bs[..0], c) == keys;
    assert ForgetKeys(bases, keys, c) == ForgetBases(bases, keys, bs, c);
  }

  /** A map cut down to the given keys. */
  function Restrict(m: map<ClassId, Instance>, keys: set<ClassId>): (r: map<ClassId, Instance>)
    ensures r.Keys == m.Keys * keys
    ensures forall c | c in r :: r[c] == m[c]
  {
    map c | c in m && c in keys :: m[c]
  }

  /** No two classes share an instance. */
  predicate Injective(m: map<ClassId, Instance>)
  {
    forall c, d | c in m && d in m && c != d :: m[c] != m[d]
  }

  // ---------------------------------------------------------------------------
  // The registry
  // ---------------------------------------------------------------------------

  class Registry {
    /** The Singleton bases of each class. */
    const bases: ClassId -> seq<ClassId>
    /** `c_instance` in each class's own `__dict__`. */
    var instances: map<ClassId, Instance>
    /** `_st_singletons`. */
    var registry: set<ClassId>
    /** The classes whose `__init__` ran, in order. */
    var inits: seq<ClassId>
    /** The number of objects `__new__` created so far. */
    var next: nat

    ghost predicate Valid()
      reads this
    {
      Hierarchy(bases) && registry == instances.Keys && Injective(instances) &&
      forall c | c in instances :: instances[c] < next
    }

    constructor (bases: ClassId -> seq<ClassId>)
      requires Hierarchy(bases)
      ensures Valid() && this.bases == bases
      ensures instances == map[] && registry == {} && inits == [] && next == 0
    {
      this.bases := bases;
      instances := map[];
      registry := {};
      inits := [];
      next := 0;
    }

    /** `_is_instantiated`: whether c holds an instance of its own, ignoring those of its bases. */
    predicate IsInstantiated(c: ClassId)
      reads this
    {
      c in instances
    }

    /** `MetaSingleton.__call__`: calling a class directly always fails. */
    method Call(c: ClassId) returns (r: Result<Instance, SingletonError>)
      ensures r == Err(OnlyThroughGetInstance)
    {
      r := Err(OnlyThroughGetInstance);
    }

    /** `_add_singleton`. */
    method Add(c: ClassId)
      requires c !in registry
      modifies this
      ensures registry == old(registry) + {c}
      ensures instances == old(instances) && inits == old(inits) && next == old(next)
    {
      registry := registry + {c};
    }

    /** `_remove_singleton`: drops c if it is registered. */
    method Remove(c: ClassId)
      modifies this
      ensures registry == old(registry) - {c}
      ensures instances == old(instances) && inits == old(inits) && next == old(next)
    {
      if c in registry {
        registry := registry - {c};
      }
    }

    /**
      `_create_singleton_instance(c)`: unless c already holds an instance, a
      new object is made and initialised; an `__init__` that returns makes
      it c's instance and registers c, one that raises leaves c as it was.
    */
    method CreateInstance(c: ClassId, init: InitOutcome) returns (r: Option<SingletonError>)
      requires Valid()
      modifies this
      ensures Valid()
      ensures old(c in instances) ==>
                r == None && instances == old(instances) && inits == old(inits) && next == old(next)
      ensures old(c !in instances) ==> inits == old(inits) + [c] && next == old(next) + 1
      ensures old(c !in instances) && init.Returned? ==>
                r == None && instances == old(instances)[c := old(next)]
      ensures old(c !in instances) && init.Raises? ==>
                r == Some(InitFailure(init.e)) && instances == old(instances)
    {
      if IsInstantiated(c) {
        return None;
      }
      var instance := next;
      next := next + 1;
      inits := inits + [c];
      if init.Raises? {
        return Some(InitFailure(init.e));
      }
      instances := instances[c := instance];
      Add(c);
      r := None;
    }

    /**
      `c.get_instance(*args, **kw_args)`: the instance c holds, created on the
      first call. Later calls with arguments fail unless the class sets
      `ignore_subsequent`.
    */
    method GetInstance(c: ClassId, hasArgs: bool, ignoreSubsequent: bool, init: InitOutcome)
      returns (r: Result<Instance, SingletonError>)
      requires Valid()
      modifies this
      ensures Valid()
      ensures old(c in instances) ==>
                instances == old(instances) && registry == old(registry) && inits == old(inits) && next == old(next)
      ensures old(c in instances) ==>
                r == if hasArgs && !ignoreSubsequent then Err(AlreadyInstantiated) else Ok(old(instances[c]))
      ensures old(c !in instances) ==> inits == old(inits) + [c]
      ensures old(c !in instances) && init.Returned? ==>
                r == Ok(old(next)) && old(next) !in old(instances.Values) &&
                instances == old(instances)[c := old(next)] && registry == old(registry) + {c}
      ensures old(c !in instances) && init.Raises? ==>
                r == Err(InitFailure(init.e)) && instances == old(instances) && registry == old(registry)
    {
      if IsInstantiated(c) {
        if hasArgs && !ignoreSubsequent {
          return Err(AlreadyInstantiated);
        }
      } else {
        var failure := CreateInstance(c, init);
        if failure.Some? {
          return Err(failure.value);
        }
      }
      r := Ok(instances[c]);
    }

    /**
      `c._forget_class_instance_reference_for_testing()`: c's own instance is
      deleted and c unregistered; a class without one passes the request on
      to each of its bases.
    */
    method Forget(c: ClassId)
      requires Valid()
      modifies this
      ensures Valid()
      ensures instances == Restrict(old(instances), ForgetKeys(bases, old(instances).Keys, c))
      ensures inits == old(inits) && next == old(next)
      decreases c, 1
    {
      if c in instances {
        instances := instances - {c};
        Remove(c);
      } else {
        var bs := bases(c);
        for k := 0 to |bs|
          invariant Valid() && inits == old(inits) && next == old(next)
          invariant instances == Restrict(old(instances), ForgetBases(bases, old(instances).Keys, bs[..k], c))
        {
          assert bs[..k + 1][..k] == bs[..k];
          assert bs[k] < c;
          BasesShrink(bases, old(instances).Keys, bs[..k], c);
          ForgetBase(bs[k], ForgetBases(bases, old(instances).Keys, bs[..k], c), old(instances));
        }
        assert bs[..|bs|] == bs;
      }
    }

    /** One base told to forget, from the state the earlier bases left. */
    method ForgetBase(b: ClassId, ghost keys: set<ClassId>, ghost start: map<ClassId, Instance>)
      requires Valid() && keys <= start.Keys && instances == Restrict(start, keys)
      modifies this
      ensures Valid() && inits == old(inits) && next == old(next)
      ensures instances == Restrict(start, ForgetKeys(bases, keys, b))
      decreases b, 2
    {
      assert instances.Keys == keys;
      Forget(b);
      ForgetShrinks(bases, keys, b);
      RestrictTwice(start, keys, ForgetKeys(bases, keys, b));
    }

    /**
      `forget_all_singletons()`: every registered class forgets its
      instance, after which no class holds one.
    */
    method ForgetAll()
      requires Valid()
      modifies this
      ensures Valid() && instances == map[] && registry == {}
      ensures inits == old(inits) && next == old(next)
    {
      var todo := registry;
      while todo != {}
        invariant Valid() && registry == todo && inits == old(inits) && next == old(next)
        decreases todo
      {
        var c :| c in todo;
        Forget(c);
        ForgetOwn(bases, todo, c);
        todo := todo - {c};
      }
    }
  }

  /** Cutting a map down twice is cutting it down to the smaller set of keys. */
  lemma RestrictTwice(m: map<ClassId, Instance>, outer: set<ClassId>, inner: set<ClassId>)
    requires inner <= outer
    ensures Restrict(Restrict(m, outer), inner) == Restrict(m, inner)
  {
  }
}
