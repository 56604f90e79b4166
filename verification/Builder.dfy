/** The create builder as an object: setters, defaults, check and createSpec update or read the
    mutation it points to. */
module Builder {
  import opened Schema
  import opened RowCodec
  import opened Create
  import opened BulkModel

  /** A mutation. Its id is a pointer to the ID member of a node, here the node itself. */
  class Mutation {
    var values: Values
    var id: APIKey?
    var done: bool

    constructor ()
      ensures values == map[] && id == null && !done
    {
      values, id, done := map[], null, false;
    }
  }

  /** The insert spec; idValue is nil until the store writes it. */
  class CreateSpec {
    var entries: seq<FieldSpec>
    var idValue: Option<int>

    constructor ()
      ensures entries == [] && idValue == None
    {
      entries, idValue := [], None;
    }
  }

  class APIKeyCreate {
    var mutation: Mutation
    const hooks: seq<Hook>

    constructor (m: Mutation, hooks: seq<Hook>)
      ensures mutation == m && this.hooks == hooks
    {
      mutation := m;
      this.hooks := hooks;
    }

    /** Any SetX or SetNillableX method of the builder. */
    method Call(call: SetterCall)
      modifies mutation
      ensures mutation.values == ApplyCall(old(mutation.values), call)
      ensures mutation.id == old(mutation.id) && mutation.done == old(mutation.done)
    {
      match call
      case Set(f, v) => mutation.values := mutation.values[f := v];
      case SetNillable(f, arg) =>
        if arg.Some? {
          mutation.values := mutation.values[f := arg.value];
        }
    }

    method DefaultFor(f: Field, t: Times)
      modifies mutation
      ensures mutation.values == DefaultOne(old(mutation.values), f, t)
      ensures mutation.id == old(mutation.id) && mutation.done == old(mutation.done)
    {
      if f !in mutation.values && DefaultOf(f, t).Some? {
        mutation.values := mutation.values[f := DefaultOf(f, t).value];
      }
    }

    method Defaults(t: Times)
      modifies mutation
      ensures mutation.values == Defaulted(old(mutation.values), t)
      ensures mutation.id == old(mutation.id) && mutation.done == old(mutation.done)
    {
      var fs := DefaultOrder();
      for k := 0 to |fs|
        invariant mutation.values == DefaultList(old(mutation.values), fs[..k], t)
        invariant mutation.id == old(mutation.id) && mutation.done == old(mutation.done)
      {
        DefaultFor(fs[k], t);
        assert fs[..k + 1][..k] == fs[..k];
      }
      assert fs[..|fs|] == fs;
    }

    /** Field by field in column order, the spec and the node are filled together. */
    method MakeSpec() returns (node: APIKey, spec: CreateSpec)
      ensures fresh(node) && fresh(spec)
      ensures node.View() == NodeOf(mutation.values)
      ensures spec.entries == Entries(mutation.values) && spec.idValue == None
    {
      node := new APIKey();
      spec := new CreateSpec();
      AddColumns(node, spec, Columns());
    }

    method AddColumns(node: APIKey, spec: CreateSpec, columns: seq<Field>)
      requires node.View() == ZeroNode() && spec.entries == [] && spec.idValue == None
      modifies node, spec
      ensures node.View() == Node(0, NodeMembers(mutation.values, columns), map[])
      ensures spec.entries == SpecFields(mutation.values, columns) && spec.idValue == None
    {
      for k := 0 to |columns|
        invariant node.View() == Node(0, NodeMembers(mutation.values, columns[..k]), map[])
        invariant spec.entries == SpecFields(mutation.values, columns[..k]) && spec.idValue == None
      {
        assert columns[..k + 1][..k] == columns[..k];
        var f := columns[k];
        if f != ID && f in mutation.values {
          spec.entries := spec.entries + [FieldSpec(f, KindOf(f), mutation.values[f])];
          node.members := node.members[f := Some(mutation.values[f])];
        }
      }
      assert columns[..|columns|] == columns;
    }
  }

  /** Any sequence of setter calls leaves in the mutation what the calls say. */
  method CallAll(b: APIKeyCreate, calls: seq<SetterCall>)
    modifies b.mutation
    ensures b.mutation.values == RunCalls(old(b.mutation.values), calls)
    ensures b.mutation.id == old(b.mutation.id) && b.mutation.done == old(b.mutation.done)
  {
    for k := 0 to |calls|
      invariant b.mutation.values == RunCalls(old(b.mutation.values), calls[..k])
      invariant b.mutation.id == old(b.mutation.id) && b.mutation.done == old(b.mutation.done)
    {
      b.Call(calls[k]);
      assert calls[..k + 1][..k] == calls[..k];
    }
    assert calls[..|calls|] == calls;
  }
}
