/** Strong three-valued logic: the truth tables every rule and override condition is read with. */
module Kleene {
  import opened Ids

  datatype Truth = True | False | Unknown
  {
    function Rank(): nat {
      match this
      case False => 0
      case Unknown => 1
      case True => 2
    }

    /** The truth order False < Unknown < True. */
    predicate AtMost(other: Truth) {
      Rank() <= other.Rank()
    }
  }

  function Definite(b: bool): Truth {
    if b then True else False
  }

  // ---------------------------------------------------------------- the n-ary tables

  function All(values: seq<Truth>): Truth {
    if False in values then False
    else if Unknown in values then Unknown
    else True
  }

  function Any(values: seq<Truth>): Truth {
    if True in values then True
    else if Unknown in values then Unknown
    else False
  }

  function AtLeast(n: nat, values: seq<Truth>): Truth {
    var t, u := multiset(values)[True], multiset(values)[Unknown];
    if t >= n then True
    else if t + u < n then False
    else Unknown
  }

  // ---------------------------------------------------------------- the loops that compute them

  method AllOf(values: seq<Truth>) returns (r: Truth)
    ensures r == All(values)
  {
    var seenUnknown := false;
    for i := 0 to |values|
      invariant False !in values[..i]
      invariant seenUnknown <==> Unknown in values[..i]
    {
      if values[i] == False {
        return False;
      }
      if values[i] == Unknown {
        seenUnknown := true;
      }
    }
    assert values[..|values|] == values;
    return if seenUnknown then Unknown else True;
  }

  method AnyOf(values: seq<Truth>) returns (r: Truth)
    ensures r == Any(values)
  {
    var seenUnknown := false;
    for i := 0 to |values|
      invariant True !in values[..i]
      invariant seenUnknown <==> Unknown in values[..i]
    {
      if values[i] == True {
        return True;
      }
      if values[i] == Unknown {
        seenUnknown := true;
      }
    }
    assert values[..|values|] == values;
    return if seenUnknown then Unknown else False;
  }

  /** A threshold below one is refused. */
  method NOf(n: int, values: seq<Truth>) returns (r: Option<Truth>)
    ensures r == if n < 1 then None else Some(AtLeast(n, values))
  {
    if n < 1 {
      return None;
    }
    var t, u := 0, 0;
    for i := 0 to |values|
      invariant t == multiset(values[..i])[True]
      invariant u == multiset(values[..i])[Unknown]
    {
      assert values[..i + 1] == values[..i] + [values[i]];
      if values[i] == True {
        t := t + 1;
      } else if values[i] == Unknown {
        u := u + 1;
      }
    }
    assert values[..|values|] == values;
    if t >= n {
      return Some(True);
    }
    if t + u < n {
      return Some(False);
    }
    return Some(Unknown);
  }

  // ---------------------------------------------------------------- counting

  lemma {:induction false} CountsAddUp(values: seq<Truth>)
    ensures multiset(values)[True] + multiset(values)[Unknown] + multiset(values)[False] == |values|
  {
    if values == [] {
      assert multiset(values) == multiset{};
    } else {
      assert values == [values[0]] + values[1..];
      CountsAddUp(values[1..]);
      assert values[0] == True || values[0] == Unknown || values[0] == False;
    }
  }

  /** Operands that agree with a Boolean reading, pointwise, are counted alike. */
  lemma {:induction false} CountsAgree(values: seq<Truth>, v: Truth, bits: seq<bool>, b: bool)
    requires |values| == |bits|
    requires forall i :: 0 <= i < |values| ==> (values[i] == v <==> bits[i] == b)
    ensures multiset(values)[v] == multiset(bits)[b]
  {
    if values != [] {
      assert values == [values[0]] + values[1..];
      assert bits == [bits[0]] + bits[1..];
      CountsAgree(values[1..], v, bits[1..], b);
    }
  }

  lemma {:induction false} BitsAddUp(bits: seq<bool>)
    ensures multiset(bits)[true] + multiset(bits)[false] == |bits|
  {
    if bits == [] {
      assert multiset(bits) == multiset{};
    } else {
      assert bits == [bits[0]] + bits[1..];
      BitsAddUp(bits[1..]);
      assert bits[0] == true || bits[0] == false;
    }
  }
}
