/** The category buckets of the table and composition views, and the lists
    the categorisation loops build. */
module Buckets {
  import opened Values
  import opened Text
  import opened Records

  /** One category bucket. The composition view never uses `Dca`. */
  datatype Bucket =
    | Dca
    | RentaFija
    | RentaVariable
    | Cryptomonedas
    | Acciones
    | Crowfounding
    | Epsv
    | CapitalRiesgo

  /** The phrase test of bucket `b` on the upper-cased type `k`, as both
      views write it (`"RENTA FIJA" in inv_type`, ...); for `Dca` it is the
      test for "DCA" alone. */
  predicate Mentions(k: string, b: Bucket) {
    match b
    case Dca => Contains(k, "DCA")
    case RentaFija => Contains(k, "RENTA FIJA")
    case RentaVariable => Contains(k, "RENTA VARIABLE")
    case Cryptomonedas => Contains(k, "CRYPTO")
    case Acciones => Contains(k, "ACCIONES")
    case Crowfounding => Contains(k, "CROWFOUNDING")
    case Epsv => Contains(k, "EPSV")
    case CapitalRiesgo => Contains(k, "CAPITAL RIESGO")
  }

  /** `(inv.get("investment_type") or "").upper()`: a missing, `None` or
      empty type all read as the empty string. */
  function TypeKey(t: Option<string>): (k: string)
    ensures k == "" <==> t.None? || t.value == ""
  {
    Upper(t.GetOr(""))
  }

  /** The list a categorisation loop appends to for bucket `b`: the rows of
      `rs` that `classify` sends to `b`, in input order. */
  function Members(rs: seq<Investment>, classify: Option<string> -> Bucket, b: Bucket): (m: seq<Investment>)
    ensures |m| <= |rs|
  {
    if rs == [] then []
    else Members(rs[..|rs| - 1], classify, b) +
         (if classify(rs[|rs| - 1].investmentType) == b then [rs[|rs| - 1]] else [])
  }

  /** A bucket's list holds exactly the rows classified into it. */
  lemma {:induction false} MembersIff(rs: seq<Investment>, classify: Option<string> -> Bucket, b: Bucket, x: Investment)
    ensures x in Members(rs, classify, b) <==> x in rs && classify(x.investmentType) == b
  {
    if rs != [] {
      MembersIff(rs[..|rs| - 1], classify, b, x);
      assert rs == rs[..|rs| - 1] + [rs[|rs| - 1]];
    }
  }

  /** Categorising two lists one after the other: the rows of the first part
      come first in every bucket, so each bucket keeps input order. */
  lemma {:induction false} MembersConcat(a: seq<Investment>, c: seq<Investment>, classify: Option<string> -> Bucket, b: Bucket)
    ensures Members(a + c, classify, b) == Members(a, classify, b) + Members(c, classify, b)
  {
    if c == [] {
      assert a + c == a;
    } else {
      assert (a + c)[..|a + c| - 1] == a + c[..|c| - 1];
      MembersConcat(a, c[..|c| - 1], classify, b);
    }
  }

  /** How many times `x` occurs in `bs`. */
  function Occurrences(bs: seq<Bucket>, x: Bucket): nat {
    if bs == [] then 0 else (if bs[0] == x then 1 else 0) + Occurrences(bs[1..], x)
  }

  /** The sum of the bucket list lengths over the buckets `bs`. */
  function CountOver(rs: seq<Investment>, classify: Option<string> -> Bucket, bs: seq<Bucket>): nat {
    if bs == [] then 0 else |Members(rs, classify, bs[0])| + CountOver(rs, classify, bs[1..])
  }

  /** The sum of `f` over the bucket lists of the buckets `bs`. */
  function SumOver(rs: seq<Investment>, classify: Option<string> -> Bucket, bs: seq<Bucket>, f: Investment -> real): real {
    if bs == [] then 0.0 else Sum(Members(rs, classify, bs[0]), f) + SumOver(rs, classify, bs[1..], f)
  }

  lemma {:induction false} CountOverStep(rs: seq<Investment>, classify: Option<string> -> Bucket, bs: seq<Bucket>)
    requires rs != []
    ensures CountOver(rs, classify, bs) ==
            CountOver(rs[..|rs| - 1], classify, bs) + Occurrences(bs, classify(rs[|rs| - 1].investmentType))
  {
    if bs != [] {
      CountOverStep(rs, classify, bs[1..]);
    }
  }

  /** The last row adds its value to the sum of its own bucket's list only. */
  lemma {:induction false} SumMembersLast(rs: seq<Investment>, classify: Option<string> -> Bucket, b: Bucket, f: Investment -> real)
    requires rs != []
    ensures Sum(Members(rs, classify, b), f) ==
            Sum(Members(rs[..|rs| - 1], classify, b), f) + (if classify(rs[|rs| - 1].investmentType) == b then f(rs[|rs| - 1]) else 0.0)
  {
    var last := rs[|rs| - 1];
    var m := Members(rs[..|rs| - 1], classify, b);
    var tail := if classify(last.investmentType) == b then [last] else [];
    assert Members(rs, classify, b) == m + tail;
    SumConcat(m, tail, f);
    assert Sum(tail, f) == if classify(last.investmentType) == b then f(last) else 0.0;
  }

  /** The last row adds its value to the per-bucket sums once when its
      bucket occurs once in `bs`, and not at all when it does not occur. */
  lemma {:induction false} SumOverStep(rs: seq<Investment>, classify: Option<string> -> Bucket, bs: seq<Bucket>, f: Investment -> real)
    requires rs != [] && Occurrences(bs, classify(rs[|rs| - 1].investmentType)) <= 1
    ensures SumOver(rs, classify, bs, f) ==
            SumOver(rs[..|rs| - 1], classify, bs, f) +
            (if Occurrences(bs, classify(rs[|rs| - 1].investmentType)) == 1 then f(rs[|rs| - 1]) else 0.0)
  {
    if bs != [] {
      SumMembersLast(rs, classify, bs[0], f);
      SumOverStep(rs, classify, bs[1..], f);
    }
  }

  /** When every row's bucket occurs exactly once in `bs`, the bucket lists
      partition the input: their lengths add up to the number of rows. */
  lemma {:induction false} CountPartition(rs: seq<Investment>, classify: Option<string> -> Bucket, bs: seq<Bucket>)
    requires forall r :: r in rs ==> Occurrences(bs, classify(r.investmentType)) == 1
    ensures CountOver(rs, classify, bs) == |rs|
  {
    if rs == [] {
      CountEmpty(classify, bs);
    } else {
      CountOverStep(rs, classify, bs);
      CountPartition(rs[..|rs| - 1], classify, bs);
    }
  }

  /** When every row's bucket occurs exactly once in `bs`, the per-bucket sums
      of `f` add up to the sum of `f` over all rows. */
  lemma {:induction false} SumPartition(rs: seq<Investment>, classify: Option<string> -> Bucket, bs: seq<Bucket>, f: Investment -> real)
    requires forall r :: r in rs ==> Occurrences(bs, classify(r.investmentType)) == 1
    ensures SumOver(rs, classify, bs, f) == Sum(rs, f)
  {
    if rs == [] {
      SumEmpty(classify, bs, f);
    } else {
      var init := rs[..|rs| - 1];
      SumOverStep(rs, classify, bs, f);
      SumPartition(init, classify, bs, f);
      assert rs == init + [rs[|rs| - 1]];
      SumConcat(init, [rs[|rs| - 1]], f);
    }
  }

  lemma {:induction false} CountEmpty(classify: Option<string> -> Bucket, bs: seq<Bucket>)
    ensures CountOver([], classify, bs) == 0
  {
    if bs != [] {
      CountEmpty(classify, bs[1..]);
    }
  }

  lemma {:induction false} SumEmpty(classify: Option<string> -> Bucket, bs: seq<Bucket>, f: Investment -> real)
    ensures SumOver([], classify, bs, f) == 0.0
  {
    if bs != [] {
      SumEmpty(classify, bs[1..], f);
    }
  }

  /** An ordered rule table read first-match-wins from position `j` on: the
      first bucket of `order[j..]` whose test `rule` passes on the
      upper-cased type `k`, or `fallback` when none does. */
  function FirstMatch(rule: (string, Bucket) -> bool, order: seq<Bucket>, fallback: Bucket, k: string, j: nat): Bucket
    decreases |order| - j
  {
    if j >= |order| then fallback
    else if rule(k, order[j]) then order[j]
    else FirstMatch(rule, order, fallback, k, j + 1)
  }

  /** The rule table picks the earliest passing test, and the fallback
      exactly when no test passes. */
  lemma {:induction false} FirstMatchWins(rule: (string, Bucket) -> bool, order: seq<Bucket>, fallback: Bucket, k: string, j: nat)
    decreases |order| - j
    ensures (forall i :: j <= i < |order| ==> !rule(k, order[i])) ==> FirstMatch(rule, order, fallback, k, j) == fallback
    ensures forall i :: j <= i < |order| && rule(k, order[i]) && (forall h :: j <= h < i ==> !rule(k, order[h])) ==>
              FirstMatch(rule, order, fallback, k, j) == order[i]
  {
    if j < |order| {
      FirstMatchWins(rule, order, fallback, k, j + 1);
      forall i | j <= i < |order| && rule(k, order[i]) && (forall h :: j <= h < i ==> !rule(k, order[h]))
        ensures FirstMatch(rule, order, fallback, k, j) == order[i]
      {
        if i > j {
          assert !rule(k, order[j]);
        }
      }
    }
  }

  /** Adding one more row to a categorisation appends it to its own bucket's
      list only. */
  lemma {:induction false} MembersStep(rs: seq<Investment>, classify: Option<string> -> Bucket, b: Bucket, i: nat)
    requires i < |rs|
    ensures Members(rs[..i + 1], classify, b) ==
            Members(rs[..i], classify, b) + (if classify(rs[i].investmentType) == b then [rs[i]] else [])
  {
    assert rs[..i + 1][..i] == rs[..i];
  }

  /** The categorisation loop: one empty list per bucket of `bs`, then every
      row appended to the list of the bucket `classify` gives it. */
  method Distribute(rs: seq<Investment>, classify: Option<string> -> Bucket, bs: seq<Bucket>)
    returns (lists: map<Bucket, seq<Investment>>)
    requires forall t :: classify(t) in bs
    ensures lists.Keys == set b | b in bs
    ensures forall b :: b in lists ==> lists[b] == Members(rs, classify, b)
  {
    lists := map b | b in bs :: [];
    var i := 0;
    while i < |rs|
      invariant 0 <= i <= |rs|
      invariant lists.Keys == set b | b in bs
      invariant forall b :: b in lists ==> lists[b] == Members(rs[..i], classify, b)
    {
      var inv := rs[i];
      var bucket := classify(inv.investmentType);
      lists := lists[bucket := lists[bucket] + [inv]];
      forall b | b in lists
        ensures lists[b] == Members(rs[..i + 1], classify, b)
      {
        MembersStep(rs, classify, b, i);
      }
      i := i + 1;
    }
    assert rs[..i] == rs;
  }

  /** A bucket of a list without repetitions occurs in it exactly once. */
  lemma {:induction false} OccursOnce(bs: seq<Bucket>, x: Bucket)
    requires forall i, j :: 0 <= i < j < |bs| ==> bs[i] != bs[j]
    requires x in bs
    ensures Occurrences(bs, x) == 1
  {
    if bs[0] == x {
      OccursNot(bs[1..], x);
    } else {
      OccursOnce(bs[1..], x);
    }
  }

  lemma {:induction false} OccursNot(bs: seq<Bucket>, x: Bucket)
    requires x !in bs
    ensures Occurrences(bs, x) == 0
  {
    if bs != [] {
      OccursNot(bs[1..], x);
    }
  }
}
