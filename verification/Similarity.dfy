/** Token embeddings as sparse bucket counts, and their cosine similarity, in exact arithmetic. */
module Similarity {
  const VECTOR_DIM := 128

  /** Bucket -> count; absent buckets count 0. */
  type Vector = map<nat, nat>

  function At(v: Vector, i: nat): nat
  {
    if i in v then v[i] else 0
  }

  predicate ValidVector(v: Vector)
  {
    forall i :: i in v ==> i < VECTOR_DIM && v[i] > 0
  }

  // ----- embedding -----

  /** 32-bit FNV-1a over the character codes. */
  function Fnv(token: string, h: bv32): bv32
  {
    if token == "" then h else Fnv(token[1..], Mix(h, token[0]))
  }

  function Mix(h: bv32, c: char): bv32
  {
    (h ^ (c as int as bv32)) * 16777619
  }

  /** |hash| as a signed 32-bit number, modulo the dimension. */
  function Bucket(token: string): (b: nat)
    ensures b < VECTOR_DIM
  {
    var n := Fnv(token, 2166136261) as int;
    (if n >= 0x8000_0000 then 0x1_0000_0000 - n else n) % VECTOR_DIM
  }

  function CountIn(tokens: seq<string>, b: nat): nat
  {
    if tokens == [] then 0
    else
      var t := tokens[|tokens| - 1];
      CountIn(tokens[..|tokens| - 1], b) + (if t != "" && Bucket(t) == b then 1 else 0)
  }

  /** The embedding counts, per bucket, the non-empty tokens that hash to it. */
  method EmbedTokens(tokens: seq<string>) returns (vec: Vector)
    ensures ValidVector(vec)
    ensures forall b: nat :: At(vec, b) == CountIn(tokens, b)
  {
    hide Bucket;
    vec := map[];
    assert tokens[..0] == [];
    for i := 0 to |tokens|
      invariant ValidVector(vec) && forall b: nat :: At(vec, b) == CountIn(tokens[..i], b)
    {
      var token := tokens[i];
      assert tokens[..i + 1][..i] == tokens[..i];
      if token != "" {
        var bucket := Bucket(token);
        vec := vec[bucket := At(vec, bucket) + 1];
      }
    }
    assert tokens[..|tokens|] == tokens;
  }

  lemma {:induction false} FnvStep(c: char, rest: string, h: bv32, h': bv32)
    requires Mix(h, c) == h'
    ensures Fnv([c] + rest, h) == Fnv(rest, h') && Fnv("", h') == h'
  {
    hide Mix;
    assert ([c] + rest)[0] == c && ([c] + rest)[1..] == rest;
  }

  lemma {:induction false} Codes()
    ensures 'a' as int as bv32 == 97 && 'b' as int as bv32 == 98 && 'f' as int as bv32 == 102
    ensures 'o' as int as bv32 == 111 && 'r' as int as bv32 == 114
  {
  }

  /** Published test values of the hash; as a signed number the first is negative, with the bucket of 0x1BF3D6D4. */
  lemma {:induction false} FnvVectors()
    ensures Fnv("a", 2166136261) == 0xE40C292C && Bucket("a") == 84
    ensures Fnv("foobar", 2166136261) == 0xBF9CF968
  {
    hide Fnv;
    Codes();
    FnvStep('a', "", 2166136261, 0xE40C292C);
    assert ['a'] + "" == "a";
    FnvStep('f', "oobar", 2166136261, 0xE30C2799);
    FnvStep('o', "obar", 0xE30C2799, 0x6222E842);
    FnvStep('o', "bar", 0x6222E842, 0xA9F37ED7);
    FnvStep('b', "ar", 0xA9F37ED7, 0x3F5076EF);
    FnvStep('a', "r", 0x3F5076EF, 0x39AAA18A);
    FnvStep('r', "", 0x39AAA18A, 0xBF9CF968);
    assert ['f'] + "oobar" == "foobar" && ['o'] + "obar" == "oobar" && ['o'] + "bar" == "obar" && ['b'] + "ar" == "bar";
    assert ['a'] + "r" == "ar" && ['r'] + "" == "r";
  }

  function NonEmpty(tokens: seq<string>): nat
  {
    if tokens == [] then 0
    else NonEmpty(tokens[..|tokens| - 1]) + if tokens[|tokens| - 1] != "" then 1 else 0
  }

  function Sum(tokens: seq<string>, n: nat): nat
  {
    if n == 0 then 0 else Sum(tokens, n - 1) + CountIn(tokens, n - 1)
  }

  lemma {:induction false} SumStep(tokens: seq<string>, n: nat)
    requires tokens != []
    ensures var t := tokens[|tokens| - 1];
            Sum(tokens, n) == Sum(tokens[..|tokens| - 1], n) + if t != "" && Bucket(t) < n then 1 else 0
  {
    hide Bucket;
    if n > 0 { SumStep(tokens, n - 1); }
  }

  lemma {:induction false} SumNone(n: nat)
    ensures Sum([], n) == 0
  {
    if n > 0 { SumNone(n - 1); }
  }

  /** Every non-empty token is counted in exactly one bucket. */
  lemma {:induction false} EveryTokenCounted(tokens: seq<string>)
    ensures Sum(tokens, VECTOR_DIM) == NonEmpty(tokens)
  {
    hide Bucket, Sum;
    if tokens == [] {
      SumNone(VECTOR_DIM);
    } else {
      EveryTokenCounted(tokens[..|tokens| - 1]);
      SumStep(tokens, VECTOR_DIM);
    }
  }

  // ----- dense and sparse products -----

  /** The dense dot product over the first n buckets. */
  function Dot(a: Vector, b: Vector, n: nat): nat
  {
    if n == 0 then 0 else Dot(a, b, n - 1) + At(a, n - 1) * At(b, n - 1)
  }

  /** The part of it on a set of buckets. */
  ghost function DotOn(a: Vector, b: Vector, s: set<nat>, n: nat): nat
  {
    if n == 0 then 0 else DotOn(a, b, s, n - 1) + (if n - 1 in s then At(a, n - 1) * At(b, n - 1) else 0)
  }

  lemma {:induction false} DotOnRemove(a: Vector, b: Vector, s: set<nat>, k: nat, n: nat)
    requires k in s
    ensures DotOn(a, b, s, n) == DotOn(a, b, s - {k}, n) + (if k < n then At(a, k) * At(b, k) else 0)
  {
    if n > 0 { DotOnRemove(a, b, s, k, n - 1); }
  }

  lemma {:induction false} DotOnKeys(a: Vector, b: Vector, n: nat)
    ensures DotOn(a, b, a.Keys, n) == Dot(a, b, n) && DotOn(a, b, {}, n) == 0
  {
    if n > 0 { DotOnKeys(a, b, n - 1); }
  }

  lemma {:induction false} DotSymmetric(a: Vector, b: Vector, n: nat)
    ensures Dot(a, b, n) == Dot(b, a, n)
  {
    if n > 0 { DotSymmetric(a, b, n - 1); }
  }

  method Norm(a: Vector) returns (norm: nat)
    requires ValidVector(a)
    ensures norm == Dot(a, a, VECTOR_DIM)
  {
    hide Dot, DotOn;
    norm := 0;
    var left := a.Keys;
    DotOnKeys(a, a, VECTOR_DIM);
    while left != {}
      invariant left <= a.Keys && norm + DotOn(a, a, left, VECTOR_DIM) == Dot(a, a, VECTOR_DIM)
      decreases |left|
    {
      var k :| k in left;
      DotOnRemove(a, a, left, k, VECTOR_DIM);
      norm := norm + a[k] * a[k];
      left := left - {k};
    }
  }

  /** The three sums of the similarity, in any order of the map's entries. */
  method CosineParts(a: Vector, b: Vector) returns (dot: nat, normA: nat, normB: nat)
    requires ValidVector(a) && ValidVector(b)
    ensures dot == Dot(a, b, VECTOR_DIM)
    ensures normA == Dot(a, a, VECTOR_DIM) && normB == Dot(b, b, VECTOR_DIM)
  {
    hide Dot, DotOn;
    normA := Norm(a);
    normB := Norm(b);
    dot := 0;
    var left := a.Keys;
    DotOnKeys(a, b, VECTOR_DIM);
    while left != {}
      invariant left <= a.Keys && dot + DotOn(a, b, left, VECTOR_DIM) == Dot(a, b, VECTOR_DIM)
      decreases |left|
    {
      var bucket :| bucket in left;
      DotOnRemove(a, b, left, bucket, VECTOR_DIM);
      var valueB := if bucket in b then b[bucket] else 0;
      if valueB > 0 { dot := dot + a[bucket] * valueB; }
      left := left - {bucket};
    }
  }

  // ----- Cauchy-Schwarz -----

  lemma {:induction false} TwiceBelowSum(p: nat, q: nat, r: nat)
    requires r * r <= p * q
    ensures 2 * r <= p + q
  {
    assert (p + q) * (p + q) == 4 * (p * q) + (p - q) * (p - q);
    assert (p - q) * (p - q) >= 0;
    assert (2 * r) * (2 * r) == 4 * (r * r);
    if 2 * r > p + q { SquareMonotone(p + q, 2 * r); }
  }

  lemma {:induction false} SquareMonotone(x: nat, y: nat)
    requires x < y
    ensures x * x < y * y
  {
    assert y * y == x * x + (y - x) * (y + x);
    assert (y - x) * (y + x) > 0;
  }

  lemma {:induction false} CrossTerm(d: nat, na: nat, nb: nat, x: nat, y: nat)
    requires d * d <= na * nb
    ensures 2 * (d * (x * y)) <= na * (y * y) + nb * (x * x)
  {
    var w := (x * x) * (y * y);
    Interchange(d, x * y, d, x * y);
    Interchange(x, y, x, y);
    Interchange(na, y * y, nb, x * x);
    MulMonotone(d * d, na * nb, w);
    TwiceBelowSum(na * (y * y), nb * (x * x), d * (x * y));
  }

  lemma {:induction false} Interchange(a: int, b: int, c: int, d: int)
    ensures (a * b) * (c * d) == (a * c) * (b * d)
  {
    assert (a * b) * (c * d) == a * (b * c) * d;
    assert (a * c) * (b * d) == a * (c * b) * d;
  }

  lemma {:induction false} MulMonotone(x: nat, y: nat, w: nat)
    requires x <= y
    ensures x * w <= y * w
  {
  }

  /** The dot product squared is at most the product of the squared norms. */
  lemma {:induction false} CauchySchwarz(a: Vector, b: Vector, n: nat)
    ensures Dot(a, b, n) * Dot(a, b, n) <= Dot(a, a, n) * Dot(b, b, n)
  {
    if n > 0 {
      CauchySchwarz(a, b, n - 1);
      var d, na, nb, x, y := Dot(a, b, n - 1), Dot(a, a, n - 1), Dot(b, b, n - 1), At(a, n - 1), At(b, n - 1);
      CrossTerm(d, na, nb, x, y);
      SquareExpand(d, na, nb, x, y);
    }
  }

  lemma {:induction false} SquareExpand(d: nat, na: nat, nb: nat, x: nat, y: nat)
    ensures (d + x * y) * (d + x * y) == d * d + 2 * (d * (x * y)) + (x * x) * (y * y)
    ensures (na + x * x) * (nb + y * y) == na * nb + na * (y * y) + nb * (x * x) + (x * x) * (y * y)
  {
    assert (x * y) * (x * y) == (x * x) * (y * y);
  }

  // ----- the similarity value -----

  /** Similarity, given the exact square roots of the norms; 0 when a vector or a norm is empty. */
  function Cosine(a: Vector, b: Vector, rootA: real, rootB: real): real
  {
    if a == map[] || b == map[] || rootA <= 0.0 || rootB <= 0.0 then 0.0
    else (PositiveProduct(rootA, rootB); Dot(a, b, VECTOR_DIM) as real / (rootA * rootB))
  }

  ghost predicate IsRoot(v: Vector, root: real)
  {
    root >= 0.0 && root * root == Dot(v, v, VECTOR_DIM) as real
  }

  /** Math.round */
  function Round(x: real): int
  {
    (x + 0.5).Floor
  }

  lemma {:induction false} QuotientAtMostOne(x: real, y: real)
    requires 0.0 <= x <= y && 0.0 < y
    ensures 0.0 <= x / y <= 1.0
  {
  }

  lemma {:induction false} RootBound(x: real, y: real)
    requires 0.0 <= x && 0.0 <= y && x * x <= y * y
    ensures x <= y
  {
    assert x * x - y * y == (x - y) * (x + y);
    if x > y { PositiveProduct(x - y, x + y); }
  }

  lemma {:induction false} PositiveProduct(x: real, y: real)
    requires x > 0.0 && y > 0.0
    ensures x * y > 0.0
  {
  }

  lemma {:induction false} PositiveSquare(x: real, y: real, square: real)
    requires x > 0.0 && y > 0.0 && square == x * y
    ensures square > 0.0
  {
  }

  lemma {:induction false} RealMul(m: nat, n: nat)
    ensures (m * n) as real == m as real * n as real
  {
  }

  lemma {:induction false} SelfQuotient(y: real)
    requires y != 0.0
    ensures y / y == 1.0
  {
  }

  /** The similarity lies in [0, 1], so the ranking bonus round(30 * similarity) is between 0 and 30. */
  lemma {:induction false} CosineInUnit(a: Vector, b: Vector, rootA: real, rootB: real)
    requires IsRoot(a, rootA) && IsRoot(b, rootB)
    ensures 0.0 <= Cosine(a, b, rootA, rootB) <= 1.0
    ensures 0 <= Round(Cosine(a, b, rootA, rootB) * 30.0) <= 30
    ensures Cosine(a, b, rootA, rootB) == Cosine(b, a, rootB, rootA)
  {
    hide Dot;
    CauchySchwarz(a, b, VECTOR_DIM);
    DotSymmetric(a, b, VECTOR_DIM);
    var d, na, nb := Dot(a, b, VECTOR_DIM), Dot(a, a, VECTOR_DIM), Dot(b, b, VECTOR_DIM);
    if rootA > 0.0 && rootB > 0.0 {
      RealBound(d, na, nb, rootA, rootB);
      QuotientAtMostOne(d as real, rootA * rootB);
    }
  }

  lemma {:induction false} RealBound(d: nat, na: nat, nb: nat, ra: real, rb: real)
    requires d * d <= na * nb && ra > 0.0 && rb > 0.0 && ra * ra == na as real && rb * rb == nb as real
    ensures ra * rb > 0.0 && d as real <= ra * rb && ra * rb == rb * ra
  {
    RealMul(d, d);
    RealMul(na, nb);
    assert (d * d) as real <= (na * nb) as real;
    assert (ra * rb) * (ra * rb) == (ra * ra) * (rb * rb);
    PositiveProduct(ra, rb);
    RootBound(d as real, ra * rb);
  }

  lemma {:induction false} DotPositive(a: Vector, k: nat, n: nat)
    requires k in a && a[k] > 0 && k < n
    ensures Dot(a, a, n) > 0
  {
    var x := At(a, n - 1);
    assert x * x >= 0;
    if k < n - 1 {
      DotPositive(a, k, n - 1);
    } else {
      assert x * x >= x > 0;
    }
  }

  /** A non-empty vector is fully similar to itself. */
  lemma {:induction false} CosineSelf(a: Vector, root: real)
    requires ValidVector(a) && a != map[] && IsRoot(a, root)
    ensures Cosine(a, a, root, root) == 1.0
  {
    hide Dot;
    var k :| k in a;
    DotPositive(a, k, VECTOR_DIM);
    var square := Dot(a, a, VECTOR_DIM) as real;
    assert root > 0.0;
    PositiveSquare(root, root, square);
    SelfQuotient(square);
  }

  lemma {:induction false} DotShared(a: Vector, b: Vector, n: nat)
    ensures Dot(a, b, n) > 0 <==> exists k: nat :: k < n && At(a, k) > 0 && At(b, k) > 0
  {
    if n > 0 {
      DotShared(a, b, n - 1);
      var x, y := At(a, n - 1), At(b, n - 1);
      assert x * y > 0 <==> x > 0 && y > 0;
    }
  }

  /** Two texts are similar at all exactly when they share a bucket; then neither similarity nor norm is zero. */
  lemma {:induction false} SimilarIffShared(a: Vector, b: Vector, rootA: real, rootB: real)
    requires ValidVector(a) && ValidVector(b) && IsRoot(a, rootA) && IsRoot(b, rootB)
    ensures Cosine(a, b, rootA, rootB) > 0.0 <==> exists k: nat :: k in a && k in b
  {
    hide Dot;
    DotShared(a, b, VECTOR_DIM);
    DotShared(a, a, VECTOR_DIM);
    DotShared(b, b, VECTOR_DIM);
    if k: nat :| k in a && k in b {
      assert At(a, k) > 0 && At(b, k) > 0;
      RootPositive(a, rootA);
      RootPositive(b, rootB);
      PositiveProduct(rootA, rootB);
      PositiveQuotient(Dot(a, b, VECTOR_DIM) as real, rootA * rootB);
    } else if a != map[] && b != map[] && rootA > 0.0 && rootB > 0.0 {
      assert forall k: nat :: At(a, k) > 0 && At(b, k) > 0 ==> k in a && k in b;
      PositiveProduct(rootA, rootB);
      ZeroQuotient(rootA * rootB);
    }
  }

  lemma {:induction false} RootPositive(v: Vector, root: real)
    requires IsRoot(v, root) && Dot(v, v, VECTOR_DIM) > 0
    ensures root > 0.0
  {
  }

  lemma {:induction false} PositiveQuotient(x: real, y: real)
    requires x > 0.0 && y > 0.0
    ensures x / y > 0.0
  {
  }

  lemma {:induction false} ZeroQuotient(y: real)
    requires y > 0.0
    ensures 0.0 / y == 0.0
  {
  }

  /** Rounding goes to the nearest whole number, up from the middle. */
  lemma {:induction false} RoundNearest(x: real)
    ensures -0.5 <= x - Round(x) as real < 0.5
  {
  }
}
