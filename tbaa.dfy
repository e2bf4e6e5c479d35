/**
  The operand layout of the type-based alias analysis (TBAA) metadata nodes
  built by the wrapper: scalar type nodes, struct type nodes and `tbaa.struct`
  nodes.  An LLVM metadata operand is modelled abstractly; the operand vector
  of a node is the sequence `MDNode::get` receives.
*/
module TbaaNodes {
  import opened CTypes

  /** One metadata operand: a null slot, a reference to another node, a 64-bit
      integer constant, or a metadata string. */
  datatype MD = Null | Node(id: nat) | Const(value: u64) | Str(name: string)

  /** The operand list of a scalar type node: parent, size, name. */
  function ScalarTypeNodeOps(name: string, size: u64, parent: MD): (ops: seq<MD>)
    ensures |ops| == 3 && ops[0] == parent && ops[1] == Const(size) && ops[2] == Str(name)
  {
    [parent, Const(size), Str(name)]
  }

  /** The 3*n field operands of a struct type node, for the first `n` fields:
      (field, offset, size) per field. */
  function FieldTriples(fields: seq<MD>, offsets: seq<u64>, sizes: seq<u64>, n: nat): (ops: seq<MD>)
    requires n <= |fields| && n <= |offsets| && n <= |sizes|
    ensures |ops| == 3 * n
  {
    if n == 0 then []
    else FieldTriples(fields, offsets, sizes, n - 1)
         + [fields[n - 1], Const(offsets[n - 1]), Const(sizes[n - 1])]
  }

  /** The operand list of a struct type node with `n` fields. */
  function StructTypeNodeOps(name: string, size: u64, parent: MD,
                             fields: seq<MD>, offsets: seq<u64>, sizes: seq<u64>, n: nat): (ops: seq<MD>)
    requires n <= |fields| && n <= |offsets| && n <= |sizes|
    ensures |ops| == 3 * n + 3
    ensures ops[0] == parent && ops[1] == Const(size) && ops[2] == Str(name)
  {
    ScalarTypeNodeOps(name, size, parent) + FieldTriples(fields, offsets, sizes, n)
  }

  /** The 3*n operands of a `tbaa.struct` node, for the first `n` fields:
      (offset, size, type) per field. */
  function StructNodeOps(types: seq<MD>, offsets: seq<u64>, sizes: seq<u64>, n: nat): (ops: seq<MD>)
    requires n <= |types| && n <= |offsets| && n <= |sizes|
    ensures |ops| == 3 * n
  {
    if n == 0 then []
    else StructNodeOps(types, offsets, sizes, n - 1)
         + [Const(offsets[n - 1]), Const(sizes[n - 1]), types[n - 1]]
  }

  /** Field i of the first n sits at slots 3i, 3i+1, 3i+2 of the field operands. */
  lemma {:induction false} FieldTriplesAt(fields: seq<MD>, offsets: seq<u64>, sizes: seq<u64>, n: nat, i: nat)
    requires n <= |fields| && n <= |offsets| && n <= |sizes|
    requires i < n
    ensures var ops := FieldTriples(fields, offsets, sizes, n);
            ops[3 * i] == fields[i] && ops[3 * i + 1] == Const(offsets[i]) && ops[3 * i + 2] == Const(sizes[i])
  {
    if i < n - 1 {
      FieldTriplesAt(fields, offsets, sizes, n - 1, i);
    }
  }

  /** The struct type node: length 3n+3, header slots 0..2, and field i at slots
      3+3i (field), 3+3i+1 (offset constant), 3+3i+2 (size constant). */
  lemma StructTypeNodeLayout(name: string, size: u64, parent: MD,
                             fields: seq<MD>, offsets: seq<u64>, sizes: seq<u64>, n: nat)
    requires n <= |fields| && n <= |offsets| && n <= |sizes|
    ensures var ops := StructTypeNodeOps(name, size, parent, fields, offsets, sizes, n);
            && |ops| == 3 * n + 3
            && ops[0] == parent && ops[1] == Const(size) && ops[2] == Str(name)
            && forall i | 0 <= i < n ::
                 ops[3 + 3 * i] == fields[i]
                 && ops[3 + 3 * i + 1] == Const(offsets[i])
                 && ops[3 + 3 * i + 2] == Const(sizes[i])
  {
    var ops := StructTypeNodeOps(name, size, parent, fields, offsets, sizes, n);
    forall i | 0 <= i < n
      ensures ops[3 + 3 * i] == fields[i]
              && ops[3 + 3 * i + 1] == Const(offsets[i])
              && ops[3 + 3 * i + 2] == Const(sizes[i])
    {
      FieldTriplesAt(fields, offsets, sizes, n, i);
    }
  }

  /** The `tbaa.struct` node: length 3n and field i at slots 3i (offset
      constant), 3i+1 (size constant), 3i+2 (type). */
  lemma {:induction false} StructNodeLayout(types: seq<MD>, offsets: seq<u64>, sizes: seq<u64>, n: nat)
    requires n <= |types| && n <= |offsets| && n <= |sizes|
    ensures var ops := StructNodeOps(types, offsets, sizes, n);
            && |ops| == 3 * n
            && forall i | 0 <= i < n ::
                 ops[3 * i] == Const(offsets[i])
                 && ops[3 * i + 1] == Const(sizes[i])
                 && ops[3 * i + 2] == types[i]
  {
    if n > 0 {
      StructNodeLayout(types, offsets, sizes, n - 1);
    }
  }

  /** A struct type node without fields has the layout of a scalar type node. */
  lemma StructTypeNodeWithoutFields(name: string, size: u64, parent: MD,
                                    fields: seq<MD>, offsets: seq<u64>, sizes: seq<u64>)
    ensures StructTypeNodeOps(name, size, parent, fields, offsets, sizes, 0)
            == ScalarTypeNodeOps(name, size, parent)
  {
  }

  /** Both struct layouts carry the same per-field facts: the struct type node's
      triple for field i is the `tbaa.struct` node's triple for field i rotated
      by one place, shifted past the three header slots. */
  lemma StructLayoutsAgree(name: string, size: u64, parent: MD,
                           fields: seq<MD>, offsets: seq<u64>, sizes: seq<u64>, n: nat, i: nat)
    requires n <= |fields| && n <= |offsets| && n <= |sizes|
    requires i < n
    ensures var t := StructTypeNodeOps(name, size, parent, fields, offsets, sizes, n);
            var s := StructNodeOps(fields, offsets, sizes, n);
            t[3 + 3 * i] == s[3 * i + 2] && t[3 + 3 * i + 1] == s[3 * i] && t[3 + 3 * i + 2] == s[3 * i + 1]
  {
    StructTypeNodeLayout(name, size, parent, fields, offsets, sizes, n);
    StructNodeLayout(fields, offsets, sizes, n);
  }

  /** One store into an operand vector, together with its count in the
      ghost store tally: slot k receives x, and only its tally goes up. */
  method Store(v: array<MD>, k: nat, x: MD, ghost writes: seq<nat>) returns (ghost writes': seq<nat>)
    requires k < v.Length == |writes|
    modifies v
    ensures v[..] == old(v[..])[k := x]
    ensures writes' == writes[k := writes[k] + 1]
  {
    v[k] := x;
    writes' := writes[k := writes[k] + 1];
  }

  /** Create_TBAA_Struct_Type_Node: pre-size the operand vector to
      num_fields*3 + 3 null slots, write the header, then fill the field
      triples in a loop; the node's operands are the vector's contents.
      Every store goes through Store, so `writes[k]` counts
      the stores into slot k. */
  method CreateStructTypeNode(name: string, size: u64, numFields: i32, parent: MD,
                              fields: seq<MD>, offsets: seq<u64>, sizes: seq<u64>)
    returns (ops: seq<MD>, ghost writes: seq<nat>)
    requires 0 <= numFields as int && 3 * numFields as int + 3 <= I32_MAX
    requires numFields as int <= |fields| && numFields as int <= |offsets| && numFields as int <= |sizes|
    ensures ops == StructTypeNodeOps(name, size, parent, fields, offsets, sizes, numFields as nat)
    ensures |writes| == |ops| && forall k | 0 <= k < |writes| :: writes[k] == 1
  {
    var n := numFields as nat;
    ghost var spec := StructTypeNodeOps(name, size, parent, fields, offsets, sizes, n);
    StructTypeNodeLayout(name, size, parent, fields, offsets, sizes, n);
    var v := new MD[n * 3 + 3](_ => Null);
    writes := seq(n * 3 + 3, _ => 0);
    writes := Store(v, 0, parent, writes);
    writes := Store(v, 1, Const(size), writes);
    writes := Store(v, 2, Str(name), writes);
    var i := 0;
    while i < n
      invariant 0 <= i <= n
      invariant |writes| == v.Length == |spec|
      invariant forall k | 0 <= k < 3 + 3 * i :: v[k] == spec[k] && writes[k] == 1
      invariant forall k | 3 + 3 * i <= k < v.Length :: writes[k] == 0
    {
      writes := Store(v, 3 + i * 3, fields[i], writes);
      writes := Store(v, 3 + i * 3 + 1, Const(offsets[i]), writes);
      writes := Store(v, 3 + i * 3 + 2, Const(sizes[i]), writes);
      i := i + 1;
    }
    ops := v[..];
  }

  /** Create_TBAA_Struct_Node: pre-size the operand vector to num_fields*3
      null slots and fill the (offset, size, type) triples in a loop.
      Every store goes through Store, so `writes[k]` counts
      the stores into slot k. */
  method CreateStructNode(numFields: i32, types: seq<MD>, offsets: seq<u64>, sizes: seq<u64>)
    returns (ops: seq<MD>, ghost writes: seq<nat>)
    requires 0 <= numFields as int && 3 * numFields as int <= I32_MAX
    requires numFields as int <= |types| && numFields as int <= |offsets| && numFields as int <= |sizes|
    ensures ops == StructNodeOps(types, offsets, sizes, numFields as nat)
    ensures |writes| == |ops| && forall k | 0 <= k < |writes| :: writes[k] == 1
  {
    var n := numFields as nat;
    ghost var spec := StructNodeOps(types, offsets, sizes, n);
    StructNodeLayout(types, offsets, sizes, n);
    var v := new MD[n * 3](_ => Null);
    writes := seq(n * 3, _ => 0);
    var i := 0;
    while i < n
      invariant 0 <= i <= n
      invariant |writes| == v.Length == |spec|
      invariant forall k | 0 <= k < 3 * i :: v[k] == spec[k] && writes[k] == 1
      invariant forall k | 3 * i <= k < v.Length :: writes[k] == 0
    {
      writes := Store(v, i * 3, Const(offsets[i]), writes);
      writes := Store(v, i * 3 + 1, Const(sizes[i]), writes);
      writes := Store(v, i * 3 + 2, types[i], writes);
      i := i + 1;
    }
    ops := v[..];
  }
}
