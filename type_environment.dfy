/** The static pass's environment (simplf/TypeEnvironment.java): the same
    persistent chain of cells as the runtime environment, binding names to
    static types. `Assign` only looks the name up and changes nothing. */
module TypeEnvironments {
  import opened Tokens
  import opened Outcomes
  import opened Environments

  /** A static type as the checker handles it: a DataType, or Java's null. */
  type Ty = Option<DataType>

  /** What lookup in a snapshot of type bindings yields: the type of the first
      binding for the token's literal, or the Undefined Symbol failure, which
      this environment reports with the token's lexeme. */
  function LookupType(bs: seq<Binding<Ty>>, name: Token): (r: Result<Ty>)
    ensures r.Ok? <==> exists i :: 0 <= i < |bs| && Some(bs[i].name) == name.literal
    ensures r.Err? ==> r.failure == UndefinedSymbolError(name, name.lexeme)
  {
    var k := FirstMatch(BindingNames(bs), name.literal);
    if k < |bs| then Ok(bs[k].value)
    else
      assert forall i :: 0 <= i < |bs| ==> BindingNames(bs)[i] == bs[i].name && Some(bs[i].name) != name.literal;
      Err(UndefinedSymbolError(name, name.lexeme))
  }

  /** The newest binding of a name wins; bindings of other names are looked
      up past it. */
  lemma {:induction false} LookupAfterBind(b: Binding<Ty>, bs: seq<Binding<Ty>>, name: Token)
    ensures Some(b.name) == name.literal ==> LookupType([b] + bs, name) == Ok(b.value)
    ensures Some(b.name) != name.literal ==> LookupType([b] + bs, name) == LookupType(bs, name)
  {
    var all := [b] + bs;
    assert BindingNames(all)[0] == b.name;
    if Some(b.name) != name.literal {
      var k := FirstMatch(BindingNames(bs), name.literal);
      assert forall j :: 1 <= j < |all| ==> BindingNames(all)[j] == BindingNames(bs)[j - 1];
      FirstMatchUnique(BindingNames(all), name.literal, k + 1);
    }
  }

  class TypeEnvironment {
    const data: Cell?<Ty>

    /** `new TypeEnvironment()`: no cells. */
    constructor Empty()
      ensures data == null && Valid() && Cells() == []
    {
      data := null;
    }

    /** `new TypeEnvironment(assocList, enclosing)`; `enclosing` is never
        consulted and is not part of this model. */
    constructor FromList(list: Cell?<Ty>)
      requires WellFormed(list)
      ensures data == list && Valid()
    {
      data := list;
    }

    ghost predicate Valid() {
      WellFormed(data)
    }

    ghost function Cells(): seq<Cell<Ty>> {
      Chain(data)
    }

    /** The bindings this environment currently shows, nearest first. */
    ghost function Scope(): seq<Binding<Ty>>
      reads Cells()
    {
      Bindings(Cells())
    }

    /** What `get` yields: the first cell named by the token; an empty chain or
        a missing name is an Undefined Symbol failure. */
    ghost function Resolve(name: Token): Result<Cell<Ty>> {
      var cells := Cells();
      var k := FirstMatch(Names(cells), name.literal);
      if k < |cells| then Ok(cells[k]) else Err(UndefinedSymbolError(name, name.lexeme))
    }

    /** Resolving a cell and looking the name up in the current snapshot agree. */
    lemma ResolveMatchesScope(name: Token)
      ensures Resolve(name).Ok? ==> LookupType(Scope(), name) == Ok(Resolve(name).value.value)
      ensures Resolve(name).Err? ==> LookupType(Scope(), name) == Err(Resolve(name).failure)
    {
      BindingsAt(Cells());
      assert Names(Cells()) == BindingNames(Scope());
    }

    /** `define`: a new environment with one fresh cell (name, t) in front of
        this one's chain; the receiver is unchanged. */
    method Define(name: string, t: Ty) returns (e: TypeEnvironment)
      requires Valid()
      ensures fresh(e) && fresh(e.data) && e.Valid()
      ensures e.data != null && e.data.name == name && e.data.value == t && e.data.next == data
      ensures e.Cells() == [e.data] + Cells()
      ensures Scope() == old(Scope()) && e.Scope() == [Binding(name, t)] + Scope()
    {
      var list := new Cell(name, t, data);
      e := new TypeEnvironment.FromList(list);
    }

    /** `get`: the first cell named by the token, walking from the nearest. */
    method Get(name: Token) returns (r: Result<Cell<Ty>>)
      requires Valid()
      ensures r == Resolve(name)
    {
      var cur := data;
      ghost var cells := Cells();
      ghost var i := 0;
      while cur != null && cur.next != null
        invariant cur != null ==> cur.Valid() && i < |cells| && cells[i..] == Chain(cur)
        invariant cur == null ==> cells == [] && i == 0
        invariant forall j :: 0 <= j < i ==> Some(cells[j].name) != name.literal
        decreases if cur == null then 0 else |cur.tail| + 1
      {
        if Some(cur.name) == name.literal {
          FirstMatchUnique(Names(cells), name.literal, i);
          return Ok(cur);
        }
        assert cells[i + 1..] == cells[i..][1..];
        cur := cur.next;
        i := i + 1;
      }
      if cur == null || Some(cur.name) != name.literal {
        FirstMatchUnique(Names(cells), name.literal, if cur == null then 0 else i + 1);
        return Err(UndefinedSymbolError(name, name.lexeme));
      }
      FirstMatchUnique(Names(cells), name.literal, i);
      return Ok(cur);
    }

    /** `assign`: looks the name up and checks nothing (the comparison is a
        Java assertion, disabled by default), so it changes no cell; it fails
        only when the name is unbound. */
    method Assign(name: Token, t: Ty) returns (r: Result<()>)
      requires Valid()
      ensures r.Ok? <==> Resolve(name).Ok?
      ensures r.Err? ==> r.failure == Resolve(name).failure
    {
      var found := Get(name);
      if found.Err? {
        return Err(found.failure);
      }
      return Ok(());
    }
  }

  /** Redefining a name in the type environment: the new environment gives the
      new type and the old one still gives the old type. */
  method RedefineScenario(x: Token, t1: Ty, t2: Ty) returns (inNewer: Result<Cell<Ty>>, inOlder: Result<Cell<Ty>>)
    requires x.literal == Some(x.lexeme)
    ensures inNewer.Ok? && inNewer.value.value == t2
    ensures inOlder.Ok? && inOlder.value.value == t1
  {
    var e0 := new TypeEnvironment.Empty();
    var e1 := e0.Define(x.lexeme, t1);
    var e2 := e1.Define(x.lexeme, t2);
    assert Names(e1.Cells())[0] == x.lexeme;
    assert Names(e2.Cells())[0] == x.lexeme;
    inNewer := e2.Get(x);
    inOlder := e1.Get(x);
  }
}
