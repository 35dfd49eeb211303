/**
 JSON values of fetch answers and their Equals: an object compares the number of members
 and then looks up each of its own members in the other; an array compares element by
 element. Objects keep their members in insertion order, with distinct keys.
 */
module JsonEquality {
  import opened Wrappers

  /** A double; the two zeros are one number, and NaN differs from itself. */
  datatype Number = Finite(value: real) | Infinite(negative: bool) | NaN

  datatype Json =
    | Object(members: seq<Member>)
    | Array(elements: seq<Json>)
    | Num(number: Number)
    | String(text: string)
    | Boolean(flag: bool)
    | Null

  datatype Member = Member(key: string, value: Json)

  predicate DistinctKeys(ms: seq<Member>) {
    forall i, j | 0 <= i < j < |ms| :: ms[i].key != ms[j].key
  }

  /** Every object of the tree is a dictionary. */
  predicate WellFormed(j: Json) {
    match j
    case Object(ms) => DistinctKeys(ms) && forall i | 0 <= i < |ms| :: WellFormed(ms[i].value)
    case Array(es) => forall i | 0 <= i < |es| :: WellFormed(es[i])
    case _ => true
  }

  predicate NaNFree(j: Json) {
    match j
    case Object(ms) => forall i | 0 <= i < |ms| :: NaNFree(ms[i].value)
    case Array(es) => forall i | 0 <= i < |es| :: NaNFree(es[i])
    case Num(n) => n != NaN
    case _ => true
  }

  // ----- Equals -----

  /** Index of the member with the given key, or the number of members. */
  function KeyIndex(ms: seq<Member>, key: string): (k: nat)
    ensures k <= |ms|
    ensures k < |ms| ==> ms[k].key == key
    ensures forall i | 0 <= i < k :: ms[i].key != key
  {
    if ms == [] || ms[0].key == key then 0 else 1 + KeyIndex(ms[1..], key)
  }

  /** Equals without the shortcut for one and the same object. */
  predicate Equals(a: Json, b: Json)
    decreases a
  {
    match a
    case Object(ms) =>
      b.Object? && |ms| == |b.members|
      && forall i | 0 <= i < |ms| ::
           var k := KeyIndex(b.members, ms[i].key);
           k < |b.members| && Equals(ms[i].value, b.members[k].value)
    case Array(es) =>
      b.Array? && |es| == |b.elements| && forall i | 0 <= i < |es| :: Equals(es[i], b.elements[i])
    case Num(n) => b.Num? && n == b.number && n != NaN
    case String(t) => b.String? && t == b.text
    case Boolean(f) => b.Boolean? && f == b.flag
    case Null => b.Null?
  }

  // ----- what a tree denotes -----

  /** JSON values with objects as unordered maps. */
  datatype Value =
    | ObjectValue(fields: map<string, Value>)
    | ArrayValue(items: seq<Value>)
    | NumberValue(number: Number)
    | StringValue(text: string)
    | BooleanValue(flag: bool)
    | NullValue

  function Denote(j: Json): Value
    decreases j, 1
  {
    match j
    case Object(ms) => ObjectValue(DenoteMembers(ms))
    case Array(es) => ArrayValue(DenoteElements(es))
    case Num(n) => NumberValue(n)
    case String(t) => StringValue(t)
    case Boolean(f) => BooleanValue(f)
    case Null => NullValue
  }

  function DenoteMembers(ms: seq<Member>): map<string, Value>
    decreases ms, 0
  {
    if ms == [] then map[] else DenoteMembers(ms[1..])[ms[0].key := Denote(ms[0].value)]
  }

  function DenoteElements(es: seq<Json>): (vs: seq<Value>)
    ensures |vs| == |es|
    decreases es, 0
  {
    if es == [] then [] else [Denote(es[0])] + DenoteElements(es[1..])
  }

  function Keys(ms: seq<Member>): set<string> {
    set i | 0 <= i < |ms| :: ms[i].key
  }

  lemma KeysCons(ms: seq<Member>)
    requires ms != [] && DistinctKeys(ms)
    ensures Keys(ms) == Keys(ms[1..]) + {ms[0].key} && ms[0].key !in Keys(ms[1..])
  {
  }

  lemma {:induction false} MembersLaw(ms: seq<Member>)
    requires DistinctKeys(ms)
    ensures DenoteMembers(ms).Keys == Keys(ms) && |Keys(ms)| == |ms|
    ensures forall i | 0 <= i < |ms| :: ms[i].key in Keys(ms) && DenoteMembers(ms)[ms[i].key] == Denote(ms[i].value)
    decreases |ms|
  {
    if ms != [] {
      var rest := ms[1..];
      KeysCons(ms);
      MembersLaw(rest);
      forall i | 0 <= i < |ms|
        ensures ms[i].key in Keys(ms) && DenoteMembers(ms)[ms[i].key] == Denote(ms[i].value)
      {
        assert i > 0 ==> ms[i] == rest[i - 1];
      }
    }
  }

  lemma {:induction false} ElementsLaw(es: seq<Json>)
    ensures forall i | 0 <= i < |es| :: DenoteElements(es)[i] == Denote(es[i])
  {
    if es != [] {
      ElementsLaw(es[1..]);
    }
  }

  /** A set of the same size as a set containing it is that set. */
  lemma SameSize(a: set<string>, b: set<string>)
    requires a <= b && |a| == |b|
    ensures a == b
  {
    assert |b - a| == |b| - |a|;
  }

  // ----- Equals is equality of what is denoted -----

  /** Equality of two values is known to be equality of what they denote, without NaN. */
  ghost predicate Understood(a: Json, b: Json) {
    Equals(a, b) <==> Denote(a) == Denote(b) && NaNFree(a)
  }

  /** A member found equal in the other object has there the value it denotes. */
  lemma FoundMember(m: Member, ns: seq<Member>)
    requires DistinctKeys(ns) && forall k | 0 <= k < |ns| :: Understood(m.value, ns[k].value)
    ensures var k := KeyIndex(ns, m.key);
            k < |ns| && Equals(m.value, ns[k].value) <==>
            && m.key in DenoteMembers(ns) && DenoteMembers(ns)[m.key] == Denote(m.value) && NaNFree(m.value)
  {
    MembersLaw(ns);
    var k := KeyIndex(ns, m.key);
    if k < |ns| {
      assert Understood(m.value, ns[k].value);
    }
  }

  /** Maps of the same size, one of which agrees with the other on its keys, are the same. */
  lemma SameMap(a: map<string, Value>, b: map<string, Value>)
    requires |a.Keys| == |b.Keys| && forall k | k in a :: k in b && b[k] == a[k]
    ensures a == b
  {
    SameSize(a.Keys, b.Keys);
  }

  /** The test on members: the same number, and each found equal in the other. */
  predicate AllFound(ms: seq<Member>, ns: seq<Member>) {
    && |ms| == |ns|
    && forall i | 0 <= i < |ms| ::
         var k := KeyIndex(ns, ms[i].key);
         k < |ns| && Equals(ms[i].value, ns[k].value)
  }

  /** One-sided lookup with equal counts is equality of the denoted maps. */
  lemma AllFoundIff(ms: seq<Member>, ns: seq<Member>)
    requires DistinctKeys(ms) && DistinctKeys(ns)
    requires forall i, k | 0 <= i < |ms| && 0 <= k < |ns| :: Understood(ms[i].value, ns[k].value)
    ensures AllFound(ms, ns) <==> DenoteMembers(ms) == DenoteMembers(ns) && forall i | 0 <= i < |ms| :: NaNFree(ms[i].value)
  {
    var a, b := DenoteMembers(ms), DenoteMembers(ns);
    MembersLaw(ms);
    MembersLaw(ns);
    forall i | 0 <= i < |ms|
      ensures var k := KeyIndex(ns, ms[i].key);
              k < |ns| && Equals(ms[i].value, ns[k].value) <==>
              ms[i].key in b && b[ms[i].key] == a[ms[i].key] && NaNFree(ms[i].value)
    {
      FoundMember(ms[i], ns);
    }
    if AllFound(ms, ns) {
      forall key | key in a ensures key in b && b[key] == a[key] {
        var i :| 0 <= i < |ms| && ms[i].key == key;
      }
      SameMap(a, b);
    }
  }

  lemma ArraysIff(es: seq<Json>, fs: seq<Json>)
    requires |es| == |fs|
    requires forall i | 0 <= i < |es| :: Understood(es[i], fs[i])
    ensures Equals(Array(es), Array(fs)) <==>
            DenoteElements(es) == DenoteElements(fs) && forall i | 0 <= i < |es| :: NaNFree(es[i])
  {
    ElementsLaw(es);
    ElementsLaw(fs);
    forall i | 0 <= i < |es|
      ensures DenoteElements(es)[i] == DenoteElements(fs)[i] && NaNFree(es[i]) <==> Equals(es[i], fs[i])
    {
      assert Understood(es[i], fs[i]);
    }
  }

  /** Two trees are equal exactly when they denote the same value and it holds no NaN. */
  lemma {:induction false} EqualsIff(a: Json, b: Json)
    requires WellFormed(a) && WellFormed(b)
    ensures Equals(a, b) <==> Denote(a) == Denote(b) && NaNFree(a)
    decreases a
  {
    if a.Object? && b.Object? {
      forall i, k | 0 <= i < |a.members| && 0 <= k < |b.members|
        ensures Understood(a.members[i].value, b.members[k].value)
      {
        EqualsIff(a.members[i].value, b.members[k].value);
      }
      AllFoundIff(a.members, b.members);
      assert Equals(a, b) <==> AllFound(a.members, b.members);
    } else if a.Array? && b.Array? {
      if |a.elements| == |b.elements| {
        forall i | 0 <= i < |a.elements|
          ensures Understood(a.elements[i], b.elements[i])
        {
          EqualsIff(a.elements[i], b.elements[i]);
        }
        ArraysIff(a.elements, b.elements);
      }
    }
  }

  /** NaN is kept by equality of denotations. */
  lemma EqualsNaNFree(a: Json, b: Json)
    requires WellFormed(a) && WellFormed(b) && Equals(a, b)
    ensures NaNFree(b)
  {
    EqualsIff(a, b);
    NaNFreeOfDenotation(a, b);
  }

  lemma {:induction false} NaNFreeOfDenotation(a: Json, b: Json)
    requires WellFormed(a) && WellFormed(b) && Denote(a) == Denote(b) && NaNFree(a)
    ensures NaNFree(b)
    decreases b
  {
    if b.Object? {
      MembersLaw(a.members);
      MembersLaw(b.members);
      forall k | 0 <= k < |b.members| ensures NaNFree(b.members[k].value) {
        assert b.members[k].key in Keys(a.members);
        var i :| 0 <= i < |a.members| && a.members[i].key == b.members[k].key;
        NaNFreeOfDenotation(a.members[i].value, b.members[k].value);
      }
    } else if b.Array? {
      ElementsLaw(a.elements);
      ElementsLaw(b.elements);
      forall k | 0 <= k < |b.elements| ensures NaNFree(b.elements[k]) {
        NaNFreeOfDenotation(a.elements[k], b.elements[k]);
      }
    }
  }

  /** Equality is symmetric and transitive, and reflexive exactly on trees without NaN. */
  lemma EqualsIsEquivalence(a: Json, b: Json, c: Json)
    requires WellFormed(a) && WellFormed(b) && WellFormed(c)
    ensures Equals(a, b) <==> Equals(b, a)
    ensures Equals(a, b) && Equals(b, c) ==> Equals(a, c)
    ensures Equals(a, a) <==> NaNFree(a)
  {
    EqualsIff(a, b);
    EqualsIff(b, a);
    EqualsIff(b, c);
    EqualsIff(a, c);
    EqualsIff(a, a);
    if Equals(a, b) {
      EqualsNaNFree(a, b);
    }
    if Equals(b, a) {
      EqualsNaNFree(b, a);
    }
  }
}
