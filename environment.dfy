/** The runtime environment (simplf/Environment.java): a persistent chain of
    association cells. `Define` prepends a fresh cell and returns a new
    environment without touching the receiver; `Assign` overwrites the value of
    an existing cell in place, so every environment whose chain contains that
    cell observes the change. The cells are heap objects so that this sharing
    is visible to the verifier. The cell and lookup definitions here are shared
    with the type environment, whose Java class reuses the same cell class. */
module Environments {
  import opened Tokens
  import opened Outcomes

  /** One association cell (`AssocList`): a name, a mutable value and the next
      (older) cell. Only `value` is ever written after construction. `tail` is
      the ghost list of the cells that follow this one. */
  class Cell<T> {
    const name: string
    var value: T
    const next: Cell?<T>
    ghost const tail: seq<Cell<T>>

    ghost predicate Valid()
      decreases |tail|
    {
      this !in tail &&
      if next == null then tail == [] else tail == [next] + next.tail && next.Valid()
    }

    constructor (name: string, value: T, next: Cell?<T>)
      requires WellFormed(next)
      ensures this.name == name && this.value == value && this.next == next
      ensures tail == Chain(next) && Valid()
    {
      this.name := name;
      this.value := value;
      this.next := next;
      this.tail := Chain(next);
    }
  }

  /** The cells reachable from `head`, nearest first. */
  ghost function Chain<T>(head: Cell?<T>): seq<Cell<T>> {
    if head == null then [] else [head] + head.tail
  }

  ghost predicate WellFormed<T>(head: Cell?<T>) {
    head == null || head.Valid()
  }

  /** No cell occurs twice along a well-formed chain. */
  lemma {:induction false} ChainDistinct<T>(head: Cell?<T>)
    requires WellFormed(head)
    ensures forall i, j :: 0 <= i < j < |Chain(head)| ==> Chain(head)[i] != Chain(head)[j]
    decreases if head == null then 0 else |head.tail| + 1
  {
    if head != null {
      ChainDistinct(head.next);
      assert Chain(head) == [head] + Chain(head.next);
    }
  }

  /** The names along a chain, in lookup order. */
  function Names<T>(cells: seq<Cell<T>>): seq<string> {
    seq(|cells|, i requires 0 <= i < |cells| => cells[i].name)
  }

  /** The position of the first name equal to `key`, or |names| if none is.
      Java compares a cell's String name with the token's `literal` object, so
      a token without a literal matches nothing. */
  function FirstMatch(names: seq<string>, key: Option<string>): (k: nat)
    ensures k <= |names|
    ensures forall j :: 0 <= j < k ==> Some(names[j]) != key
    ensures k < |names| ==> Some(names[k]) == key
    decreases |names|
  {
    if |names| == 0 then 0
    else if Some(names[0]) == key then 0
    else 1 + FirstMatch(names[1..], key)
  }

  /** The first-match position is determined by where the key first occurs. */
  lemma FirstMatchUnique(names: seq<string>, key: Option<string>, i: nat)
    requires i <= |names|
    requires forall j :: 0 <= j < i ==> Some(names[j]) != key
    requires i < |names| ==> Some(names[i]) == key
    ensures FirstMatch(names, key) == i
  {
  }

  /** `s` is the tail end of `t`: environments only ever grow at the front. */
  ghost predicate IsSuffix<U>(s: seq<U>, t: seq<U>) {
    |s| <= |t| && t[|t| - |s|..] == s
  }

  lemma SuffixTransitive<U>(a: seq<U>, b: seq<U>, c: seq<U>)
    requires IsSuffix(a, b) && IsSuffix(b, c)
    ensures IsSuffix(a, c)
  {
    assert c[|c| - |a|..] == c[|c| - |b|..][|b| - |a|..];
  }

  /** A snapshot of one cell: its name and the value it holds now. */
  datatype Binding<T> = Binding(name: string, value: T)

  /** The bindings visible along a chain in the current heap, nearest first. */
  ghost function Bindings<T>(cells: seq<Cell<T>>): (bs: seq<Binding<T>>)
    reads cells
    ensures |bs| == |cells|
    decreases |cells|
  {
    if cells == [] then [] else [Binding(cells[0].name, cells[0].value)] + Bindings(cells[1..])
  }

  /** The i-th binding of a snapshot is the i-th cell's name and value. */
  lemma {:induction false} BindingsAt<T>(cells: seq<Cell<T>>)
    ensures forall i :: 0 <= i < |cells| ==> Bindings(cells)[i] == Binding(cells[i].name, cells[i].value)
    decreases |cells|
  {
    if cells != [] {
      BindingsAt(cells[1..]);
      assert forall i :: 1 <= i < |cells| ==> cells[1..][i - 1] == cells[i];
    }
  }

  /** A cell in front of a chain adds its binding in front of the snapshot. */
  lemma BindingsCons<T>(c: Cell<T>, cells: seq<Cell<T>>)
    ensures Bindings([c] + cells) == [Binding(c.name, c.value)] + Bindings(cells)
  {
    assert ([c] + cells)[1..] == cells;
  }

  /** The write of `assign`: overwrites the value of a cell, the k-th of a
      chain of distinct cells, so only the k-th binding of the snapshot
      changes. */
  method StoreAt<T>(cell: Cell<T>, ghost cells: seq<Cell<T>>, ghost k: nat, value: T)
    requires k < |cells| && cells[k] == cell
    requires forall i, j :: 0 <= i < j < |cells| ==> cells[i] != cells[j]
    modifies cell
    ensures cell.value == value
    ensures Bindings(cells) == old(Bindings(cells))[k := Binding(cell.name, value)]
  {
    BindingsAt(cells);
    cell.value := value;
    BindingsAt(cells);
    assert forall j :: 0 <= j < |cells| && j != k ==> cells[j] != cells[k];
  }

  function BindingNames<T>(bs: seq<Binding<T>>): seq<string> {
    seq(|bs|, i requires 0 <= i < |bs| => bs[i].name)
  }

  /** What `get` yields on a snapshot of the bindings, nearest first: the value
      of the first binding named by the token's literal. With no bindings at
      all the Java loop dereferences a null list; an unbound name is reported
      with the token's literal. */
  function Lookup<T>(bs: seq<Binding<T>>, name: Token): (r: Result<T>)
    ensures r.Ok? <==> exists i :: 0 <= i < |bs| && Some(bs[i].name) == name.literal
    ensures bs == [] ==> r == Err(NullPointer)
    ensures r.Err? && bs != [] ==> r.failure == UndefinedSymbolError(name, LiteralText(name.literal))
  {
    if bs == [] then Err(NullPointer)
    else
      var k := FirstMatch(BindingNames(bs), name.literal);
      if k < |bs| then Ok(bs[k].value)
      else
        assert forall i :: 0 <= i < |bs| ==> BindingNames(bs)[i] == bs[i].name && Some(bs[i].name) != name.literal;
        Err(UndefinedSymbolError(name, LiteralText(name.literal)))
  }

  /** What `assign` does to a snapshot: the first binding named by the token
      takes the new value; the failures are those of `Lookup`. */
  function AssignIn<T>(bs: seq<Binding<T>>, name: Token, v: T): (r: Result<seq<Binding<T>>>)
    ensures r.Ok? <==> Lookup(bs, name).Ok?
    ensures r.Err? ==> r.failure == Lookup(bs, name).failure
    ensures r.Ok? ==> BindingNames(r.value) == BindingNames(bs)
    ensures r.Ok? ==> Lookup(r.value, name) == Ok(v)
    ensures r.Ok? ==> forall other: Token :: other.literal != name.literal ==> Lookup(r.value, other) == Lookup(bs, other)
  {
    var k := FirstMatch(BindingNames(bs), name.literal);
    if bs == [] || k == |bs| then Err(Lookup(bs, name).failure)
    else
      var after := bs[k := Binding(bs[k].name, v)];
      assert BindingNames(after) == BindingNames(bs);
      Ok(after)
  }

  class Environment<T> {
    const data: Cell?<T>

    /** `new Environment()`: a fresh environment with no cells. */
    constructor Empty()
      ensures data == null && Valid() && Cells() == []
    {
      data := null;
    }

    /** `new Environment(assocList, enclosing)`; the `enclosing` link is never
        consulted by lookup and is not part of this model. */
    constructor FromList(list: Cell?<T>)
      requires WellFormed(list)
      ensures data == list && Valid()
    {
      data := list;
    }

    ghost predicate Valid() {
      WellFormed(data)
    }

    /** The chain this environment sees, nearest cell first. */
    ghost function Cells(): seq<Cell<T>> {
      Chain(data)
    }

    /** What `get` yields: the first cell whose name equals the token's literal.
        With no cells at all, Java dereferences the null list at the loop test. */
    ghost function Resolve(name: Token): Result<Cell<T>> {
      var cells := Cells();
      if cells == [] then Err(NullPointer)
      else
        var k := FirstMatch(Names(cells), name.literal);
        if k < |cells| then Ok(cells[k])
        else Err(UndefinedSymbolError(name, LiteralText(name.literal)))
    }

    /** Resolving a cell and looking the name up in the current snapshot agree. */
    lemma ResolveMatchesLookup(name: Token)
      ensures Resolve(name).Ok? ==> Lookup(Bindings(Cells()), name) == Ok(Resolve(name).value.value)
      ensures Resolve(name).Err? ==> Lookup(Bindings(Cells()), name) == Err(Resolve(name).failure)
    {
      BindingsAt(Cells());
      assert Names(Cells()) == BindingNames(Bindings(Cells()));
    }

    /** `define`: a new environment whose first cell is (name, value) and whose
        next cell is this environment's first cell. The receiver is unchanged. */
    method Define(name: string, value: T) returns (e: Environment<T>)
      requires Valid()
      ensures fresh(e) && fresh(e.data) && e.Valid()
      ensures e.data != null && e.data.name == name && e.data.value == value && e.data.next == data
      ensures e.Cells() == [e.data] + Cells()
    {
      var list := new Cell(name, value, data);
      e := new Environment.FromList(list);
    }

    /** `get`: walks the chain from the nearest cell and returns the first cell
        named by the token, so later cells of that name are shadowed. */
    method Get(name: Token) returns (r: Result<Cell<T>>)
      requires Valid()
      ensures r == Resolve(name)
    {
      var cur := data;
      if cur == null {
        return Err(NullPointer);
      }
      ghost var cells := Cells();
      ghost var i := 0;
      while cur.next != null
        invariant cur != null && cur.Valid()
        invariant 0 <= i < |cells| && cells[i..] == Chain(cur)
        invariant forall j :: 0 <= j < i ==> Some(cells[j].name) != name.literal
        decreases |cur.tail|
      {
        if Some(cur.name) == name.literal {
          FirstMatchUnique(Names(cells), name.literal, i);
          return Ok(cur);
        }
        assert cells[i + 1..] == cells[i..][1..];
        cur := cur.next;
        i := i + 1;
      }
      assert |cells| == i + 1;
      if Some(cur.name) != name.literal {
        FirstMatchUnique(Names(cells), name.literal, i + 1);
        return Err(UndefinedSymbolError(name, LiteralText(name.literal)));
      }
      FirstMatchUnique(Names(cells), name.literal, i);
      return Ok(cur);
    }

    /** `assign`: overwrites the value of the cell `get` finds, in place; the
        chain and every other cell are left as they were. A name that `get`
        cannot find fails the same way `get` does. */
    method Assign(name: Token, value: T) returns (r: Result<()>)
      requires Valid()
      modifies if Resolve(name).Ok? then {Resolve(name).value} else {}
      ensures Resolve(name).Ok? ==> Resolve(name).value.value == value
      ensures var a := old(AssignIn(Bindings(Cells()), name, value));
              r == (if a.Ok? then Ok(()) else Err(a.failure))
              && Bindings(Cells()) == if a.Ok? then a.value else old(Bindings(Cells()))
    {
      ghost var cells := Cells();
      ghost var before := Bindings(cells);
      BindingsAt(cells);
      ResolveMatchesLookup(name);
      var found := Get(name);
      if found.Err? {
        assert forall j :: 0 <= j < |cells| ==> Bindings(cells)[j] == before[j];
        return Err(found.failure);
      }
      ghost var k := FirstMatch(Names(cells), name.literal);
      assert Names(cells) == BindingNames(before);
      ChainDistinct(data);
      StoreAt(found.value, cells, k, value);
      return Ok(());
    }
  }

  /** Defining a name shadows every older binding of it: the new environment
      resolves that name to its own first cell. */
  lemma DefineShadows<T>(older: Environment<T>, newer: Environment<T>, name: Token)
    requires newer.data != null && newer.data.Valid() && newer.data.next == older.data
    requires Some(newer.data.name) == name.literal
    ensures newer.Resolve(name).Ok? && newer.Resolve(name).value == newer.data
  {
    assert Names(newer.Cells())[0] == newer.data.name;
  }

  /** Defining one name leaves the resolution of every other name as it was in
      the older environment, so both environments reach the very same cell and
      share its assignments. A miss stays a miss; over an older environment
      with no cells it is now an Undefined Symbol failure instead of the null
      dereference. */
  lemma {:induction false} DefineKeepsOthers<T>(older: Environment<T>, newer: Environment<T>, name: Token)
    requires newer.data != null && newer.data.Valid() && newer.data.next == older.data
    requires Some(newer.data.name) != name.literal
    ensures newer.Resolve(name).Ok? <==> older.Resolve(name).Ok?
    ensures newer.Resolve(name) == older.Resolve(name) || (newer.Resolve(name).Err? && older.Resolve(name).Err?)
    ensures older.Resolve(name).Ok? ==> newer.Resolve(name) == older.Resolve(name)
    ensures older.data != null ==> newer.Resolve(name) == older.Resolve(name)
    ensures older.data == null ==> newer.Resolve(name) == Err(UndefinedSymbolError(name, LiteralText(name.literal)))
  {
    var cs := older.Cells();
    var ns := newer.Cells();
    assert ns == [newer.data] + cs;
    var k := FirstMatch(Names(cs), name.literal);
    assert forall j :: 1 <= j < |ns| ==> Names(ns)[j] == Names(cs)[j - 1];
    FirstMatchUnique(Names(ns), name.literal, k + 1);
    assert ns[k + 1..] == cs[k..];
  }

  /** Shadowing, observed through `Get`: after defining x twice, the newer
      environment sees the second value and the one in between still the first. */
  method ShadowingScenario<T>(x: Token, first: T, second: T) returns (seenNewer: T, seenOlder: T)
    requires x.literal == Some(x.lexeme)
    ensures seenNewer == second && seenOlder == first
  {
    var e0 := new Environment<T>.Empty();
    var e1 := e0.Define(x.lexeme, first);
    var e2 := e1.Define(x.lexeme, second);
    DefineShadows(e0, e1, x);
    DefineShadows(e1, e2, x);
    var r2 := e2.Get(x);
    var r1 := e1.Get(x);
    seenNewer := r2.value.value;
    seenOlder := r1.value.value;
  }

  /** Aliasing, observed through `Get`: E0 binds only y; E1 extends it with x
      and E2 extends E1 with y again. Assigning x through E2 is visible when
      reading x through E1, while E0, taken before x was defined, still misses
      x and still reads its own y. */
  method AliasingScenario<T>(x: Token, y: Token, v: T, w: T, u: T) returns (seen: T, before: Result<Cell<T>>, other: T)
    requires x.literal == Some(x.lexeme) && y.literal == Some(y.lexeme) && x.lexeme != y.lexeme
    ensures seen == u
    ensures before == Err(UndefinedSymbolError(x, x.lexeme))
    ensures other == w
  {
    var empty := new Environment<T>.Empty();
    var e0 := empty.Define(y.lexeme, w);
    var e1 := e0.Define(x.lexeme, v);
    var e2 := e1.Define(y.lexeme, w);
    DefineShadows(empty, e0, y);
    DefineKeepsOthers(empty, e0, x);
    DefineShadows(e0, e1, x);
    DefineKeepsOthers(e1, e2, x);
    var ok := e2.Assign(x, u);
    var r1 := e1.Get(x);
    seen := r1.value.value;
    before := e0.Get(x);
    var r0 := e0.Get(y);
    other := r0.value.value;
  }
}
