/** The JSON-like values a generated payload is made of, and the building of
    an object from a list of fields, where a later field with an already
    used name overwrites the earlier value. Key order is not modelled: an
    object is a map. */
module Json {
  import opened Schema

  datatype Value =
    | VStr(s: string)
    | VInt(i: int)
    | VNum(x: real)
    | VBool(b: bool)
    | VArr(items: seq<Value>)
    | VObj(entries: map<string, Value>)

  /** No path from `v` passes through more than `n` objects. */
  predicate DepthAtMost(v: Value, n: nat)
    decreases v
  {
    match v
    case VObj(m) => n >= 1 && forall k :: k in m ==> DepthAtMost(m[k], n - 1)
    case VArr(items) => forall i :: 0 <= i < |items| ==> DepthAtMost(items[i], n)
    case _ => true
  }

  /** A string, a number or a boolean. */
  predicate IsScalar(v: Value)
  {
    v.VStr? || v.VInt? || v.VNum? || v.VBool?
  }

  /** The object built by a loop `for (f of cs) obj[f.name] = g(f)`, where
      `g` yields `None` for a field the loop body leaves unassigned. The
      second argument of `g` is the field's position, which the value
      generators use to tell their draws apart. */
  function Assemble(cs: seq<Field>, g: (Field, nat) -> Option<Value>): (m: map<string, Value>)
    ensures m.Keys <= NameSet(cs)
    decreases |cs|
  {
    if |cs| == 0 then map[]
    else
      var last := |cs| - 1;
      var m := Assemble(cs[..last], g);
      assert NameSet(cs[..last]) <= NameSet(cs) by {
        assert forall i :: 0 <= i < last ==> cs[..last][i] == cs[i];
      }
      match g(cs[last], last)
      case Some(v) => m[cs[last].name := v]
      case None => m
  }

  /** A key is present iff some field with that name gets a value. */
  lemma {:induction false} AssembleKeys(cs: seq<Field>, g: (Field, nat) -> Option<Value>, k: string)
    ensures k in Assemble(cs, g) <==> exists j :: 0 <= j < |cs| && cs[j].name == k && g(cs[j], j).Some?
    decreases |cs|
  {
    if |cs| > 0 {
      var last := |cs| - 1;
      AssembleKeys(cs[..last], g, k);
      assert forall j :: 0 <= j < last ==> cs[..last][j] == cs[j];
    }
  }

  /** The value under a key is the one the last field with that name that
      gets a value produced. */
  lemma {:induction false} AssembleLast(cs: seq<Field>, g: (Field, nat) -> Option<Value>, j: nat)
    requires j < |cs| && g(cs[j], j).Some?
    requires forall i :: j < i < |cs| && cs[i].name == cs[j].name ==> g(cs[i], i).None?
    ensures cs[j].name in Assemble(cs, g)
    ensures Assemble(cs, g)[cs[j].name] == g(cs[j], j).value
    decreases |cs|
  {
    var last := |cs| - 1;
    var m := Assemble(cs[..last], g);
    if j < last {
      assert cs[..last][j] == cs[j];
      assert forall i :: j < i < last ==> cs[..last][i] == cs[i];
      AssembleLast(cs[..last], g, j);
      assert m[cs[j].name] == g(cs[j], j).value;
      if g(cs[last], last).Some? {
        assert cs[last].name != cs[j].name;
        assert Assemble(cs, g) == m[cs[last].name := g(cs[last], last).value];
      } else {
        assert Assemble(cs, g) == m;
      }
    } else {
      assert Assemble(cs, g) == m[cs[j].name := g(cs[j], j).value];
    }
  }

  /** Every value of the object is one that `g` produced for some field of
      that name. */
  lemma {:induction false} AssembleSource(cs: seq<Field>, g: (Field, nat) -> Option<Value>, k: string) returns (j: nat)
    requires k in Assemble(cs, g)
    ensures j < |cs| && cs[j].name == k && g(cs[j], j) == Some(Assemble(cs, g)[k])
    decreases |cs|
  {
    var last := |cs| - 1;
    var m := Assemble(cs[..last], g);
    if g(cs[last], last).Some? && cs[last].name == k {
      j := last;
    } else {
      j := AssembleSource(cs[..last], g, k);
      assert cs[..last][j] == cs[j];
    }
  }

  /** A bound every produced value meets, every value of the object meets. */
  lemma AssembleDepth(cs: seq<Field>, g: (Field, nat) -> Option<Value>, n: nat)
    requires forall c, i :: g(c, i).Some? ==> DepthAtMost(g(c, i).value, n)
    ensures forall k :: k in Assemble(cs, g) ==> DepthAtMost(Assemble(cs, g)[k], n)
  {
    forall k | k in Assemble(cs, g)
      ensures DepthAtMost(Assemble(cs, g)[k], n)
    {
      var j := AssembleSource(cs, g, k);
    }
  }

  /** When every field gets a value, the keys are exactly the field names. */
  lemma AssembleTotalKeys(cs: seq<Field>, g: (Field, nat) -> Option<Value>)
    requires forall c, i :: g(c, i).Some?
    ensures Assemble(cs, g).Keys == NameSet(cs)
  {
    forall k | k in NameSet(cs)
      ensures k in Assemble(cs, g)
    {
      AssembleKeys(cs, g, k);
      var j :| 0 <= j < |cs| && cs[j].name == k;
      assert g(cs[j], j).Some?;
    }
  }
}
