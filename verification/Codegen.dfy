/**
 The actor code generator: what a generated reference method sends, what the generated `do_work`
 of the addressed actor then runs, and when the two agree through inheritance.
 */
module Codegen {
  import opened Bytes
  import opened Options
  import opened Address

  datatype Method = Method(name: string, isVirtual: bool, isPure: bool)

  /** An actor class and, unless it derives from `hiactor::actor` itself, its base class. */
  datatype Class = Class(tid: nat, methods: seq<Method>, base: Option<Class>)

  /** The message fields that dispatch reads. */
  datatype Call = Call(addr: Addr, behaviour: nat)

  /** An executed method body, identified by the class that defines it. */
  datatype Ran = Ran(tid: nat, name: string) | Stopped

  // ----- Classes and C++ name lookup -----

  predicate Declares(c: Class, name: string) {
    exists i :: 0 <= i < |c.methods| && c.methods[i].name == name
  }

  /** `generate_actor_method_enum`: methods are numbered in order. */
  function Index(c: Class, name: string): (i: nat)
    requires Declares(c, name)
    ensures i < |c.methods| && c.methods[i].name == name
    ensures forall j :: 0 <= j < i ==> c.methods[j].name != name
  {
    IndexFrom(c.methods, name, 0)
  }

  function IndexFrom(ms: seq<Method>, name: string, from: nat): (i: nat)
    requires exists j :: from <= j < |ms| && ms[j].name == name
    ensures from <= i < |ms| && ms[i].name == name
    ensures forall j :: from <= j < i ==> ms[j].name != name
    decreases |ms| - from
  {
    if ms[from].name == name then from else IndexFrom(ms, name, from + 1)
  }

  /** The class, going up from `c`, whose declaration of `name` is found first. */
  function Lookup(c: Class, name: string): Option<Class>
    decreases c
  {
    if Declares(c, name) then Some(c)
    else if c.base.Some? then Lookup(c.base.value, name)
    else None
  }

  function Top(c: Class): Class
    decreases c
  {
    if c.base.Some? then Top(c.base.value) else c
  }

  predicate Above(x: Class, c: Class)
    decreases c
  {
    x == c || (c.base.Some? && Above(x, c.base.value))
  }

  /** Type ids are unique along a chain and fit the field; names are unique in a class. */
  ghost predicate WellFormed(c: Class)
    decreases c
  {
    && c.tid < U16
    && (forall i, j :: 0 <= i < j < |c.methods| ==> c.methods[i].name != c.methods[j].name)
    && (c.base.Some? ==> WellFormed(c.base.value) && TidFree(c.tid, c.base.value))
  }

  predicate TidFree(tid: nat, c: Class)
    decreases c
  {
    c.tid != tid && (c.base.Some? ==> TidFree(tid, c.base.value))
  }

  // ----- The two generated halves -----

  /** The reference method: stamp the defining class into the address, number the method. */
  function RefCall(c: Class, name: string, addr: Addr): Option<Call>
    requires ValidAddr(addr)
  {
    var x := Lookup(c, name);
    if x.Some? && Declares(x.value, name) && !x.value.methods[Index(x.value, name)].isPure
    then Some(Call(SetMethodTid(addr, x.value.tid), Index(x.value, name)))
    else None
  }

  /** A call of `m` from inside `c`'s switch, on an actor of class `self`. */
  function Invoke(c: Class, self: Class, m: Method): Ran {
    var x := Lookup(self, m.name);
    if m.isVirtual && x.Some? then Ran(x.value.tid, m.name) else Ran(c.tid, m.name)
  }

  /**
   `do_work` of class `c` on an actor of class `self`: a base class that is itself derived compares
   the stamp with the actor's own type id, not with its own.
   */
  function DoWork(c: Class, self: Class, call: Call): Ran
    requires ValidAddr(call.addr)
    decreases c
  {
    if c.base.Some? && GetMethodTid(call.addr) != self.tid then DoWork(c.base.value, self, call)
    else if call.behaviour < |c.methods| && !c.methods[call.behaviour].isPure
    then Invoke(c, self, c.methods[call.behaviour])
    else Stopped
  }

  // ----- Which methods can be called -----

  /** The class nearest to `c`, going up, that declares `name`. */
  ghost predicate Nearest(x: Class, c: Class, name: string) {
    && Above(x, c) && Declares(x, name)
    && forall y :: Above(y, c) && Declares(y, name) ==> Above(y, x)
  }

  /** Method number `i` of the nearest class that declares `name` is that method, and has a body. */
  ghost predicate CallableAs(c: Class, name: string, x: Class, i: nat) {
    Nearest(x, c, name) && i < |x.methods| && x.methods[i].name == name && !x.methods[i].isPure
  }

  ghost predicate Callable(c: Class, name: string) {
    exists x, i: nat :: CallableAs(c, name, x, i)
  }

  /** Going up from different classes of a chain one meets them in one order. */
  lemma AboveOnce(x: Class, y: Class)
    requires Above(x, y) && Above(y, x)
    ensures x == y
  {
    AboveSmaller(x, y);
    AboveSmaller(y, x);
  }

  function Height(c: Class): nat
    decreases c
  {
    if c.base.Some? then 1 + Height(c.base.value) else 0
  }

  lemma {:induction false} AboveSmaller(x: Class, c: Class)
    requires Above(x, c)
    ensures x == c || Height(x) < Height(c)
    decreases c
  {
    if x != c { AboveSmaller(x, c.base.value); }
  }

  /** Lookup finds the nearest declaring class and nothing else. */
  lemma {:induction false} LookupNearest(c: Class, name: string)
    ensures Lookup(c, name).Some? ==> Nearest(Lookup(c, name).value, c, name)
    ensures Lookup(c, name).None? ==> forall y :: Above(y, c) ==> !Declares(y, name)
    decreases c
  {
    if !Declares(c, name) && c.base.Some? { LookupNearest(c.base.value, name); }
  }

  lemma NearestUnique(x: Class, y: Class, c: Class, name: string)
    requires Nearest(x, c, name) && Nearest(y, c, name)
    ensures x == y
  {
    AboveOnce(x, y);
  }

  /**
   A reference method exists exactly when the nearest class that declares the name declares it with
   a body; it stamps that class's type id and sends the method's number there.
   */
  lemma RefCallIff(c: Class, name: string, addr: Addr)
    requires WellFormed(c) && ValidAddr(addr)
    ensures RefCall(c, name, addr).Some? <==> Callable(c, name)
    ensures forall x, i: nat :: CallableAs(c, name, x, i) ==>
              RefCall(c, name, addr) == Some(Call(SetMethodTid(addr, x.tid), i))
  {
    LookupNearest(c, name);
    var l := Lookup(c, name);
    if l.Some? {
      AboveWellFormed(l.value, c);
      var k := Index(l.value, name);
      if !l.value.methods[k].isPure { assert CallableAs(c, name, l.value, k); }
    }
    forall x, i: nat | CallableAs(c, name, x, i)
      ensures RefCall(c, name, addr) == Some(Call(SetMethodTid(addr, x.tid), i))
    {
      NearestUnique(x, l.value, c, name);
      assert x.methods[Index(x, name)].name == x.methods[i].name;
    }
  }

  // ----- Agreement -----

  lemma {:induction false} LookupAbove(c: Class, name: string)
    ensures var x := Lookup(c, name); x.Some? ==> Above(x.value, c) && Declares(x.value, name)
    decreases c
  {
    if !Declares(c, name) && c.base.Some? { LookupAbove(c.base.value, name); }
  }

  lemma {:induction false} AboveTid(x: Class, c: Class, tid: nat)
    requires Above(x, c) && TidFree(tid, c)
    ensures x.tid != tid
    decreases c
  {
    if x != c { AboveTid(x, c.base.value, tid); }
  }

  lemma {:induction false} AboveWellFormed(x: Class, c: Class)
    requires Above(x, c) && WellFormed(c)
    ensures WellFormed(x) && Above(Top(c), c) && Top(Top(c)) == Top(c) && (x != c ==> x.tid != c.tid)
    decreases c
  {
    if x != c {
      AboveWellFormed(x, c.base.value);
      AboveTid(x, c.base.value, c.tid);
    } else if c.base.Some? {
      AboveWellFormed(c.base.value, c.base.value);
    }
  }

  /** A stamp that is not the actor's own sends the message all the way to the top class. */
  lemma {:induction false} ForeignGoesToTop(c: Class, self: Class, call: Call)
    requires ValidAddr(call.addr) && GetMethodTid(call.addr) != self.tid
    ensures DoWork(c, self, call) == DoWork(Top(c), self, call)
    decreases c
  {
    if c.base.Some? { ForeignGoesToTop(c.base.value, self, call); }
  }

  /** The method of the top class whose number the message carries. */
  ghost predicate TopCoincides(self: Class, x: Class, name: string)
    requires Declares(x, name)
  {
    var t, i := Top(self), Index(x, name);
    i < |t.methods| && t.methods[i].name == name && t.methods[i].isVirtual && !t.methods[i].isPure
  }

  /**
   Calling `name` through a reference of class `self` runs the method that C++ lookup selects
   exactly when that method is defined by the actor's own class or by the class directly below
   `hiactor::actor`, or when the latter has a virtual of the same name under the same number.
   */
  lemma DispatchPreservesIff(self: Class, name: string, addr: Addr)
    requires WellFormed(self) && ValidAddr(addr) && Callable(self, name)
    ensures RefCall(self, name, addr).Some?
    ensures var x := Lookup(self, name);
      && x.Some? && Declares(x.value, name) && ValidAddr(RefCall(self, name, addr).value.addr)
      && (DoWork(self, self, RefCall(self, name, addr).value) == Ran(x.value.tid, name) <==>
          x.value == self || x.value == Top(self) || TopCoincides(self, x.value, name))
  {
    RefCallIff(self, name, addr);
    var x := Lookup(self, name).value;
    var call := RefCall(self, name, addr).value;
    LookupAbove(self, name);
    AboveWellFormed(x, self);
    MethodTidRoundTrip(addr, x.tid);
    var i := Index(x, name);
    if x != self {
      ForeignGoesToTop(self, self, call);
      var t := Top(self);
      AboveWellFormed(t, self);
      assert t.base.None? by { TopHasNoBase(self); }
      if x != t { TopTid(x, self); }
      if i < |t.methods| && t.methods[i].name == name { assert Declares(t, name); }
    }
  }

  lemma {:induction false} TopHasNoBase(c: Class)
    ensures Top(c).base.None?
    decreases c
  {
    if c.base.Some? { TopHasNoBase(c.base.value); }
  }

  /** Type ids tell the top class from every other class of the chain. */
  lemma {:induction false} TopTid(x: Class, c: Class)
    requires Above(x, c) && WellFormed(c) && x != Top(c)
    ensures x.tid != Top(c).tid
    decreases c
  {
    if x == c {
      AboveWellFormed(c, c);
      AboveWellFormed(Top(c), c);
    } else {
      TopTid(x, c.base.value);
    }
  }

  /** With at most two classes in the chain the generated dispatch is always right. */
  lemma TwoLevelsPreserve(self: Class, name: string, addr: Addr)
    requires WellFormed(self) && ValidAddr(addr) && Callable(self, name)
    requires self.base.Some? ==> self.base.value.base.None?
    ensures RefCall(self, name, addr).Some?
    ensures Lookup(self, name).Some? && ValidAddr(RefCall(self, name, addr).value.addr)
    ensures DoWork(self, self, RefCall(self, name, addr).value) == Ran(Lookup(self, name).value.tid, name)
  {
    DispatchPreservesIff(self, name, addr);
  }

  /** A third level where the middle class's method never runs. */
  lemma ThreeLevelsFail()
    ensures var a := Class(1, [Method("a", false, false)], None);
      var b := Class(2, [Method("b", false, false)], Some(a));
      var c := Class(3, [], Some(b));
      var addr := Addr(10, seq(52, _ => 0));
      && WellFormed(c) && RefCall(c, "b", addr).Some? && Lookup(c, "b") == Some(b)
      && ValidAddr(RefCall(c, "b", addr).value.addr)
      && DoWork(c, c, RefCall(c, "b", addr).value) == Ran(1, "a")
  {
    var a := Class(1, [Method("a", false, false)], None);
    var b := Class(2, [Method("b", false, false)], Some(a));
    var c := Class(3, [], Some(b));
    var addr := Addr(10, seq(52, _ => 0));
    assert b.methods[0].name == "b" && Declares(b, "b");
    assert Lookup(c, "b") == Some(b);
    MethodTidRoundTrip(addr, 2);
    var call := RefCall(c, "b", addr).value;
    ForeignGoesToTop(c, c, call);
    assert Top(c) == a by { assert Top(b) == a; }
  }

  /**
   End to end: the message a reference builds for an actor at up to seven layers reaches that
   same actor, and runs there what lookup selects under the condition above.
   */
  lemma CallReachesMethod(self: Class, name: string, addr: Addr)
    requires WellFormed(self) && ValidAddr(addr) && Callable(self, name)
    requires LayerCount(addr) < MAX_LAYER
    ensures RefCall(self, name, addr).Some?
    ensures var call := RefCall(self, name, addr).value;
      && ValidAddr(call.addr) && RouteBytes(call.addr) == RouteBytes(addr)
      && (Lookup(self, name).value in {self, Top(self)} ==>
            DoWork(self, self, call) == Ran(Lookup(self, name).value.tid, name))
  {
    DispatchPreservesIff(self, name, addr);
    LookupAbove(self, name);
    AboveWellFormed(Lookup(self, name).value, self);
    TidKeepsRouteIff(addr, Lookup(self, name).value.tid);
  }
}
