/** Near-duplicate detection (editor-mode/src/editor/dedup.py): a text's
    signature holds, for each permutation of the hashes, the least permuted
    hash of its shingles. */
module MinHash {
  import opened Common

  // ----- primes ---------------------------------------------------------------------------

  predicate Divides(d: int, n: int)
    requires d > 0
  {
    n % d == 0
  }

  ghost predicate IsPrime(p: int) {
    p >= 2 && forall d :: 2 <= d < p ==> !Divides(d, p)
  }

  lemma Multiple(d: int, k: int)
    requires d > 0
    ensures Divides(d, d * k)
  {
    MultipleRemainder(d, k, 0);
  }

  /** Quotient and remainder are unique. */
  lemma {:induction false} MultipleRemainder(d: int, k: int, r: int)
    requires 0 <= r < d
    ensures (d * k + r) % d == r
  {
    var n := d * k + r;
    var q := n / d - k;
    assert d * q == r - n % d by {
      assert d * (n / d) == n - n % d;
    }
    if q >= 1 {
      AtLeastOneMore(d, q);
    } else if q <= -1 {
      AtLeastOneMore(d, -q);
    }
  }

  lemma AtLeastOneMore(d: int, q: int)
    requires d > 0 && q >= 1
    ensures d * q >= d
  {
  }

  lemma ProductOfRemainder(p: int, a: int, d: int, q: int, r: int, m: int)
    requires p == a * q + r && a * d == p * m
    ensures r * d == p * (d - q * m)
  {
    calc {
      r * d;
      (p - a * q) * d;
      p * d - q * (a * d);
      p * d - q * (p * m);
      p * (d - q * m);
    }
  }

  /** A prime does not divide a product of two positive numbers below it
      (Euclid's lemma): a smaller factor is the remainder of the prime by `a`. */
  lemma {:induction false} Euclid(p: int, a: int, d: int)
    requires IsPrime(p) && 0 < a < p && 0 <= d < p
    requires Divides(p, a * d)
    ensures d == 0
    decreases a
  {
    if a > 1 {
      var q, r := p / a, p % a;
      assert !Divides(a, p);
      var m := (a * d) / p;
      assert a * d == p * m;
      ProductOfRemainder(p, a, d, q, r, m);
      Multiple(p, d - q * m);
      Euclid(p, r, d);
    }
  }

  lemma DifferenceDivides(p: int, u: int, v: int)
    requires p > 0 && u % p == v % p
    ensures Divides(p, v - u)
  {
    var j, k := v / p, u / p;
    assert v - u == p * j - p * k;
    assert p * j - p * k == p * (j - k);
    Multiple(p, j - k);
  }

  // ----- permuted hashes --------------------------------------------------------------------

  datatype Permutation = Permutation(a: nat, b: nat)

  function Permuted(h: Permutation, p: int, x: nat): nat
    requires p > 0
  {
    (h.a * x + h.b) % p
  }

  predicate IsPermutation(h: Permutation, p: int) { 0 < h.a < p && h.b < p }

  lemma PermutedDifference(h: Permutation, p: int, x: nat, y: nat)
    requires p > 0 && Permuted(h, p, x) == Permuted(h, p, y)
    ensures Divides(p, h.a * (y - x))
  {
    DifferenceDivides(p, h.a * x + h.b, h.a * y + h.b);
    Difference(h.a, h.b, x, y);
  }

  lemma Difference(a: int, b: int, x: int, y: int)
    ensures (a * y + b) - (a * x + b) == a * (y - x)
  {
  }

  /** It is a permutation of the hashes: no two go to the same place. */
  lemma {:induction false} PermutedInjective(h: Permutation, p: int, x: nat, y: nat)
    requires IsPrime(p) && IsPermutation(h, p) && x < p && y < p
    requires Permuted(h, p, x) == Permuted(h, p, y)
    ensures x == y
  {
    hide Permuted, Divides;
    if x > y {
      PermutedInjective(h, p, y, x);
    } else {
      PermutedDifference(h, p, x, y);
      Euclid(p, h.a, y - x);
    }
  }

  // ----- signatures ---------------------------------------------------------------------------

  /** The least of a set. */
  ghost function Least(s: set<nat>): (m: nat)
    requires s != {}
    ensures m in s && forall y :: y in s ==> m <= y
  {
    var x :| x in s;
    if s == {x} then x
    else
      assert s == (s - {x}) + {x};
      Min(x, Least(s - {x}))
  }

  /** One position of a signature: the least permuted hash, or `p` itself for a
      text without shingles. */
  ghost function Position(hashes: set<nat>, h: Permutation, p: int): (m: nat)
    requires p > 0
    ensures m <= p && (m == p <==> hashes == {})
  {
    if hashes == {} then p
    else
      var permuted := set x | x in hashes :: Permuted(h, p, x);
      assert permuted != {} by {
        var x :| x in hashes;
        assert Permuted(h, p, x) in permuted;
      }
      Least(permuted)
  }

  ghost function Signature(hashes: set<nat>, perms: seq<Permutation>, p: int): seq<nat>
    requires p > 0
  {
    seq(|perms|, i requires 0 <= i < |perms| => Position(hashes, perms[i], p))
  }

  /** The position is reached by some hash, and none lies below. */
  lemma {:induction false} PositionReached(hashes: set<nat>, h: Permutation, p: int) returns (x: nat)
    requires p > 0 && hashes != {}
    ensures x in hashes && Permuted(h, p, x) == Position(hashes, h, p)
    ensures forall y :: y in hashes ==> Position(hashes, h, p) <= Permuted(h, p, y)
  {
    var permuted := set x | x in hashes :: Permuted(h, p, x);
    assert Position(hashes, h, p) in permuted;
    x :| x in hashes && Permuted(h, p, x) == Position(hashes, h, p);
    forall y | y in hashes ensures Position(hashes, h, p) <= Permuted(h, p, y) {
      assert Permuted(h, p, y) in permuted;
    }
  }

  ghost predicate Hashes(hashes: set<nat>, p: int) { forall x :: x in hashes ==> x < p }

  /** `x` is permuted below all others of `hashes`. */
  ghost predicate Lowest(x: nat, hashes: set<nat>, h: Permutation, p: int)
    requires p > 0
  {
    x in hashes && forall y :: y in hashes ==> Permuted(h, p, x) <= Permuted(h, p, y)
  }

  /** What an agreeing position means: the lowest hash of the two sets together
      belongs to both. Ranging over permutations, that estimates the share of
      common shingles. */
  lemma {:induction false} AgreeExactlyWhen(a: set<nat>, b: set<nat>, h: Permutation, p: int)
    requires IsPrime(p) && IsPermutation(h, p) && Hashes(a, p) && Hashes(b, p)
    requires a != {} && b != {}
    ensures Position(a, h, p) == Position(b, h, p) <==> exists x :: x in a && x in b && Lowest(x, a + b, h, p)
  {
    hide Permuted, Position;
    var x := PositionReached(a, h, p);
    var y := PositionReached(b, h, p);
    if Position(a, h, p) == Position(b, h, p) {
      PermutedInjective(h, p, x, y);
      assert Lowest(x, a + b, h, p);
    }
    if z :| z in a && z in b && Lowest(z, a + b, h, p) {
      assert x in a + b && y in a + b;
    }
  }

  /** Texts whose signatures agree somewhere share the hash of a shingle, or
      have no shingles at all. */
  lemma {:induction false} AgreementIsShared(a: set<nat>, b: set<nat>, perms: seq<Permutation>, p: int, i: nat)
    requires IsPrime(p) && Hashes(a, p) && Hashes(b, p)
    requires i < |perms| && IsPermutation(perms[i], p)
    requires Signature(a, perms, p)[i] == Signature(b, perms, p)[i]
    ensures if a == {} then b == {} else exists x :: x in a && x in b
  {
    hide Position, Lowest;
    if a != {} && b != {} {
      AgreeExactlyWhen(a, b, perms[i], p);
    }
  }

  /** Joining two texts' shingles takes the lower value in every position; the
      value of the empty text changes nothing. */
  lemma {:induction false} SignatureOfUnion(a: set<nat>, b: set<nat>, perms: seq<Permutation>, p: int, i: nat)
    requires p > 0 && i < |perms|
    ensures Signature(a + b, perms, p)[i] == Min(Signature(a, perms, p)[i], Signature(b, perms, p)[i])
  {
    hide Permuted, Position;
    var h := perms[i];
    if a == {} {
      assert a + b == b;
    } else if b == {} {
      assert a + b == a;
    } else {
      var x := PositionReached(a, h, p);
      var y := PositionReached(b, h, p);
      var z := PositionReached(a + b, h, p);
      assert x in a + b && y in a + b;
    }
  }

  // ----- similarity -----------------------------------------------------------------------------

  /** Positions on which two signatures of one length agree. */
  function Agreeing(a: seq<nat>, b: seq<nat>): (n: nat)
    requires |a| == |b|
    ensures n <= |a|
  {
    if a == [] then 0
    else Agreeing(a[..|a| - 1], b[..|b| - 1]) + (if a[|a| - 1] == b[|b| - 1] then 1 else 0)
  }

  function Similarity(a: seq<nat>, b: seq<nat>): real {
    if |a| != |b| || a == [] then 0.0 else Agreeing(a, b) as real / |a| as real
  }

  /** The agreeing positions are counted, each once. */
  lemma {:induction false} AgreeingCounts(a: seq<nat>, b: seq<nat>)
    requires |a| == |b|
    ensures Agreeing(a, b) == |set i | 0 <= i < |a| && a[i] == b[i]|
  {
    if a != [] {
      var n := |a| - 1;
      AgreeingCounts(a[..n], b[..n]);
      var rest := set i | 0 <= i < n && a[..n][i] == b[..n][i];
      assert (set i | 0 <= i < |a| && a[i] == b[i]) == rest + (if a[n] == b[n] then {n} else {});
    }
  }

  /** Similarity is the share of agreeing positions of two signatures of one length. */
  lemma {:induction false} SimilarityIsShare(a: seq<nat>, b: seq<nat>)
    ensures |a| != |b| || a == [] ==> Similarity(a, b) == 0.0
    ensures |a| == |b| > 0 ==> Similarity(a, b) * |a| as real == (|set i | 0 <= i < |a| && a[i] == b[i]|) as real
  {
    if |a| == |b| > 0 {
      AgreeingCounts(a, b);
      var n := Agreeing(a, b) as real;
      assert n / |a| as real * |a| as real == n;
    }
  }

  lemma {:induction false} AgreeingSomewhere(a: seq<nat>, b: seq<nat>)
    requires |a| == |b|
    ensures Agreeing(a, b) > 0 <==> exists i :: 0 <= i < |a| && a[i] == b[i]
  {
    if a != [] {
      var n := |a| - 1;
      AgreeingSomewhere(a[..n], b[..n]);
      if Agreeing(a[..n], b[..n]) > 0 {
        var i :| 0 <= i < n && a[..n][i] == b[..n][i];
        assert a[i] == b[i];
      }
      if i :| 0 <= i < |a| && a[i] == b[i] && i < n {
        assert a[..n][i] == b[..n][i];
      }
    }
  }

  lemma {:induction false} AgreeingEverywhere(a: seq<nat>, b: seq<nat>)
    requires |a| == |b|
    ensures Agreeing(a, b) == |a| <==> a == b
  {
    if a != [] {
      var n := |a| - 1;
      AgreeingEverywhere(a[..n], b[..n]);
      assert a == a[..n] + [a[n]] && b == b[..n] + [b[n]];
    }
  }

  lemma {:induction false} AgreeingSymmetric(a: seq<nat>, b: seq<nat>)
    requires |a| == |b|
    ensures Agreeing(a, b) == Agreeing(b, a)
  {
    if a != [] {
      AgreeingSymmetric(a[..|a| - 1], b[..|b| - 1]);
    }
  }

  lemma Share(n: nat, total: nat)
    requires n <= total && total > 0
    ensures 0.0 <= n as real / total as real <= 1.0
    ensures n as real / total as real == 0.0 <==> n == 0
    ensures n as real / total as real == 1.0 <==> n == total
  {
    var q := n as real / total as real;
    assert q * total as real == n as real;
  }

  /** A similarity lies between 0 and 1 and is symmetric; it is 1 exactly for
      equal signatures and 0 exactly when no position agrees. */
  lemma {:induction false} SimilarityRange(a: seq<nat>, b: seq<nat>)
    requires a != []
    ensures 0.0 <= Similarity(a, b) <= 1.0
    ensures Similarity(a, b) == Similarity(b, a)
    ensures Similarity(a, b) == 1.0 <==> a == b
    ensures Similarity(a, b) > 0.0 <==> |a| == |b| && exists i :: 0 <= i < |a| && a[i] == b[i]
  {
    if |a| == |b| {
      Share(Agreeing(a, b), |a|);
      AgreeingSomewhere(a, b);
      AgreeingEverywhere(a, b);
      AgreeingSymmetric(a, b);
    }
  }

  // ----- the search -------------------------------------------------------------------------------

  datatype Candidate = Candidate(id: int, signature: seq<nat>)

  /** The last of the candidates most similar, at or above the threshold. */
  ghost predicate LastOfMostSimilar(signature: seq<nat>, candidates: seq<Candidate>, threshold: real, i: int) {
    && 0 <= i < |candidates|
    && Similarity(signature, candidates[i].signature) >= threshold
    && (forall j :: 0 <= j < i ==>
          Similarity(signature, candidates[j].signature) <= Similarity(signature, candidates[i].signature))
    && (forall j :: i < j < |candidates| ==>
          Similarity(signature, candidates[j].signature) < Similarity(signature, candidates[i].signature))
  }

  method FindDuplicate(signature: seq<nat>, candidates: seq<Candidate>, threshold: real) returns (best: Option<int>)
    ensures best.None? <==> forall j :: 0 <= j < |candidates| ==>
              Similarity(signature, candidates[j].signature) < threshold
    ensures best.Some? ==> exists i ::
              LastOfMostSimilar(signature, candidates, threshold, i) && candidates[i].id == best.value
  {
    hide Similarity;
    var bestSim := threshold;
    ghost var at := -1;
    best := None;
    for i := 0 to |candidates|
      invariant best.None? ==> at == -1 && bestSim == threshold
      invariant best.None? ==> forall j :: 0 <= j < i ==> Similarity(signature, candidates[j].signature) < threshold
      invariant best.Some? ==> 0 <= at < i && candidates[at].id == best.value
      invariant best.Some? ==> bestSim == Similarity(signature, candidates[at].signature)
      invariant best.Some? ==> LastOfMostSimilar(signature, candidates[..i], threshold, at)
    {
      var sim := Similarity(signature, candidates[i].signature);
      if sim >= bestSim {
        best, bestSim, at := Some(candidates[i].id), sim, i;
      }
    }
    assert candidates[..|candidates|] == candidates;
  }

  // ----- shingles -----------------------------------------------------------------------------------

  const WINDOW: nat := 3

  function Join(words: seq<string>): string {
    if words == [] then ""
    else if |words| == 1 then words[0]
    else words[0] + " " + Join(words[1..])
  }

  function Window(words: seq<string>, i: nat): string
    requires i + WINDOW <= |words|
  {
    Join(words[i..i + WINDOW])
  }

  function Shingles(words: seq<string>): set<string> {
    if words == [] then {}
    else if |words| < WINDOW then {Join(words)}
    else set i | 0 <= i <= |words| - WINDOW :: Window(words, i)
  }

  /** Words come from splitting at blanks. */
  ghost predicate AreWords(words: seq<string>) {
    forall i :: 0 <= i < |words| ==> words[i] != "" && ' ' !in words[i]
  }

  lemma {:induction false} FirstWord(v: string, s: string, w: string, t: string)
    requires ' ' !in v && ' ' !in w && v + s == w + t
    requires (s == "" || s[0] == ' ') && (t == "" || t[0] == ' ')
    ensures v == w && s == t
  {
    var whole := v + s;
    assert |v| < |whole| ==> whole[|v|] == ' ';
    assert |w| < |whole| ==> whole[|w|] == ' ';
    forall k | 0 <= k < |v| ensures whole[k] != ' ' {
      assert whole[k] == v[k];
    }
    forall k | 0 <= k < |w| ensures whole[k] != ' ' {
      assert whole[k] == w[k];
    }
    if |v| == |w| {
      assert v == whole[..|v|] && w == whole[..|v|];
      assert s == whole[|v|..] && t == whole[|v|..];
    }
  }

  function Tail(words: seq<string>): string
    requires words != []
  {
    if |words| == 1 then "" else " " + Join(words[1..])
  }

  lemma {:induction false} JoinParts(words: seq<string>)
    requires AreWords(words)
    ensures Join(words) == "" <==> words == []
    ensures words != [] ==> Join(words) == words[0] + Tail(words) && ' ' !in words[0]
    ensures words != [] ==> if |words| == 1 then Tail(words) == "" else Tail(words) == " " + Join(words[1..])
  {
  }

  /** A shingle gives its words back. */
  lemma {:induction false} JoinInjective(a: seq<string>, b: seq<string>)
    requires AreWords(a) && AreWords(b) && Join(a) == Join(b)
    ensures a == b
  {
    hide Join, Tail;
    JoinParts(a);
    JoinParts(b);
    if a != [] {
      FirstWord(a[0], Tail(a), b[0], Tail(b));
      if |a| > 1 {
        assert Join(a[1..]) == Tail(a)[1..] && Join(b[1..]) == Tail(b)[1..];
        JoinInjective(a[1..], b[1..]);
      }
      assert a == [a[0]] + a[1..] && b == [b[0]] + b[1..];
    }
  }

  predicate SameFrom(a: seq<string>, i: nat, b: seq<string>, j: nat, n: nat)
    requires i + n <= |a| && j + n <= |b|
  {
    a[i..i + n] == b[j..j + n]
  }

  /** `n` consecutive words stand in both texts. */
  ghost predicate ShareWords(a: seq<string>, b: seq<string>, n: nat) {
    exists i, j :: 0 <= i <= |a| - n && 0 <= j <= |b| - n && SameFrom(a, i, b, j, n)
  }

  lemma {:induction false} SharedShingle(a: seq<string>, b: seq<string>, s: string)
    requires AreWords(a) && AreWords(b) && s in Shingles(a) && s in Shingles(b)
    ensures if |a| < WINDOW then a == b else ShareWords(a, b, WINDOW)
  {
    var i := WindowOf(a, s);
    var j := WindowOf(b, s);
    var m, n := Min(|a|, WINDOW), Min(|b|, WINDOW);
    JoinInjective(a[i..i + m], b[j..j + n]);
    assert |a[i..i + m]| == |b[j..j + n]|;
    if |a| < WINDOW {
      assert a[i..i + m] == a && b[j..j + n] == b;
    } else {
      assert SameFrom(a, i, b, j, WINDOW);
    }
  }

  lemma {:induction false} WindowOf(words: seq<string>, s: string) returns (i: nat)
    requires s in Shingles(words)
    ensures var n := Min(|words|, WINDOW); i + n <= |words| && s == Join(words[i..i + n])
  {
    if |words| < WINDOW {
      i := 0;
      assert words[0..|words|] == words;
    } else {
      i :| 0 <= i <= |words| - WINDOW && s == Window(words, i);
    }
  }

  /** The hash behind the signatures, whatever it is, taken below `p`. */
  ghost function HashesOf(words: seq<string>, hash: string -> nat, p: int): set<nat>
    requires p > 0
  {
    set s | s in Shingles(words) :: hash(s) % p
  }

  /** No two different shingles of these texts have one hash. */
  ghost predicate NoCollision(a: seq<string>, b: seq<string>, hash: string -> nat, p: int)
    requires p > 0
  {
    forall s, t :: s in Shingles(a) && t in Shingles(b) && hash(s) % p == hash(t) % p ==> s == t
  }

  /** What a reported duplicate means: unless hashes collide, a text reported as
      the duplicate of another shares three consecutive words with it, or both
      are shorter than that and the same (both empty included). */
  lemma {:induction false} DuplicatesShareWords(
    a: seq<string>, b: seq<string>, hash: string -> nat, perms: seq<Permutation>, p: int, threshold: real)
    requires IsPrime(p) && (forall i :: 0 <= i < |perms| ==> IsPermutation(perms[i], p))
    requires AreWords(a) && AreWords(b) && NoCollision(a, b, hash, p)
    requires threshold > 0.0
    requires Similarity(Signature(HashesOf(a, hash, p), perms, p), Signature(HashesOf(b, hash, p), perms, p)) >= threshold
    ensures if |a| < 3 then a == b else ShareWords(a, b, 3)
  {
    hide Position, Shingles, ShareWords;
    var x, y := HashesOf(a, hash, p), HashesOf(b, hash, p);
    var s, t := Signature(x, perms, p), Signature(y, perms, p);
    SimilarityRange(s, t);
    var i :| 0 <= i < |s| && s[i] == t[i];
    AgreementIsShared(x, y, perms, p, i);
    NoHashesNoWords(a, hash, p);
    NoHashesNoWords(b, hash, p);
    if x != {} {
      var n :| n in x && n in y;
      var v :| v in Shingles(a) && hash(v) % p == n;
      var w :| w in Shingles(b) && hash(w) % p == n;
      SharedShingle(a, b, v);
    }
  }

  lemma {:induction false} NoHashesNoWords(words: seq<string>, hash: string -> nat, p: int)
    requires p > 0
    ensures HashesOf(words, hash, p) == {} <==> words == []
  {
    if words != [] {
      assert (if |words| < WINDOW then Join(words) else Window(words, 0)) in Shingles(words);
      var s :| s in Shingles(words);
      assert hash(s) % p in HashesOf(words, hash, p);
    }
  }
}
