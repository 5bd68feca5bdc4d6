/** The loops that append a counter to a code until it is unused. */
module UniqueCodes {

  function Digit(n: nat): char
    requires n < 10
  {
    "0123456789"[n]
  }

  function Decimal(n: nat): string {
    if n < 10 then [Digit(n)] else Decimal(n / 10) + [Digit(n % 10)]
  }

  lemma {:induction false} DecimalNonEmpty(n: nat)
    ensures |Decimal(n)| >= 1 && (|Decimal(n)| == 1 <==> n < 10)
  {}

  /** Different numbers have different decimal forms. */
  lemma {:induction false} DecimalInjective(m: nat, n: nat)
    requires Decimal(m) == Decimal(n)
    ensures m == n
  {
    DecimalNonEmpty(m);
    DecimalNonEmpty(n);
    var s, t := Decimal(m), Decimal(n);
    assert s[|s| - 1] == Digit(m % 10) && t[|t| - 1] == Digit(n % 10);
    if m >= 10 {
      assert s[..|s| - 1] == Decimal(m / 10) && t[..|t| - 1] == Decimal(n / 10);
      DecimalInjective(m / 10, n / 10);
    }
  }

  /** The code itself, then stem-1, stem-2, ... */
  function Candidate(first: string, stem: string, i: nat): string {
    if i == 0 then first else stem + "-" + Decimal(i)
  }

  lemma {:induction false} SuffixedDiffer(first: string, stem: string, i: nat, j: nat)
    requires 0 < i < j
    ensures Candidate(first, stem, i) != Candidate(first, stem, j)
  {
    if Candidate(first, stem, i) == Candidate(first, stem, j) {
      var n := |stem + "-"|;
      assert Candidate(first, stem, i)[n..] == Decimal(i);
      assert Candidate(first, stem, j)[n..] == Decimal(j);
      DecimalInjective(i, j);
    }
  }

  /** The suffixed candidates with numbers below n. */
  ghost function Tried(first: string, stem: string, n: nat): set<string> {
    if n <= 1 then {} else Tried(first, stem, n - 1) + {Candidate(first, stem, n - 1)}
  }

  lemma {:induction false} LaterIsUntried(first: string, stem: string, n: nat, k: nat)
    requires 0 < k && n <= k
    ensures Candidate(first, stem, k) !in Tried(first, stem, n)
  {
    if n > 1 {
      SuffixedDiffer(first, stem, n - 1, k);
      LaterIsUntried(first, stem, n - 1, k);
    }
  }

  lemma {:induction false} TriedCount(first: string, stem: string, n: nat, existing: set<string>)
    requires n >= 1
    requires forall j :: 0 < j < n ==> Candidate(first, stem, j) in existing
    ensures |Tried(first, stem, n)| == n - 1 && Tried(first, stem, n) <= existing
  {
    if n > 1 {
      TriedCount(first, stem, n - 1, existing);
      LaterIsUntried(first, stem, n - 1, n - 1);
    }
  }

  lemma {:induction false} SubsetIsSmaller<T>(a: set<T>, b: set<T>)
    requires a <= b
    ensures |a| <= |b|
  {
    assert b == a + (b - a);
  }

  lemma {:induction false} Progress(first: string, stem: string, i: nat, existing: set<string>)
    requires i >= 1 && Candidate(first, stem, i - 1) in existing
    ensures if i == 1 then existing - Tried(first, stem, i) == existing - Tried(first, stem, i - 1)
            else existing - Tried(first, stem, i) < existing - Tried(first, stem, i - 1)
  {
    if i > 1 {
      LaterIsUntried(first, stem, i - 1, i - 1);
      assert Candidate(first, stem, i - 1) in existing - Tried(first, stem, i - 1);
    }
  }

  lemma {:induction false} TriesBounded(first: string, stem: string, tries: nat, existing: set<string>)
    requires tries >= 1 && forall j :: 0 <= j < tries ==> Candidate(first, stem, j) in existing
    ensures tries <= |existing| + 1
  {
    TriedCount(first, stem, tries, existing);
    SubsetIsSmaller(Tried(first, stem, tries), existing);
  }

  /** Returns the first unused candidate, after at most |existing| + 1 suffixed ones. Every pass
      finds one more element of the existing codes, so the set of those not yet met shrinks. */
  method MakeUnique(first: string, stem: string, existing: set<string>) returns (code: string, tries: nat)
    ensures code !in existing && code == Candidate(first, stem, tries)
    ensures forall j :: 0 <= j < tries ==> Candidate(first, stem, j) in existing
    ensures tries <= |existing| + 1
  {
    code := first;
    var i := 1;
    while code in existing
      invariant i >= 1 && code == Candidate(first, stem, i - 1)
      invariant forall j :: 0 <= j < i - 1 ==> Candidate(first, stem, j) in existing
      decreases existing - Tried(first, stem, i - 1), i == 1
    {
      Progress(first, stem, i, existing);
      code := stem + "-" + Decimal(i);
      i := i + 1;
    }
    tries := i - 1;
    if tries > 0 { TriesBounded(first, stem, tries, existing); }
  }

  // -- The three callers ------------------------------------------------------

  /** s.slice(0, n) */
  function Slice(s: string, n: nat): string {
    if |s| <= n then s else s[..n]
  }

  method MakeUniqueSlug(base: string, existing: set<string>) returns (slug: string, tries: nat)
    ensures slug !in existing && slug == Candidate(base, base, tries) && tries <= |existing| + 1
    ensures forall j :: 0 <= j < tries ==> Candidate(base, base, j) in existing
  {
    slug, tries := MakeUnique(base, base, existing);
  }

  method MakeUniqueMa(base: string, existing: set<string>) returns (ma: string, tries: nat)
    ensures ma !in existing && ma == Candidate(Slice(base, 255), Slice(base, 250), tries) && tries <= |existing| + 1
    ensures forall j :: 0 <= j < tries ==> Candidate(Slice(base, 255), Slice(base, 250), j) in existing
    ensures |existing| < 9999 ==> |ma| <= 255
  {
    ma, tries := MakeUnique(Slice(base, 255), Slice(base, 250), existing);
    FitsIff(base, 250, tries);
  }

  method MakeUniqueSku(base: string, existing: set<string>) returns (sku: string, tries: nat)
    ensures sku !in existing && sku == Candidate(Slice(base, 100), Slice(base, 95), tries) && tries <= |existing| + 1
    ensures forall j :: 0 <= j < tries ==> Candidate(Slice(base, 100), Slice(base, 95), j) in existing
    ensures |existing| < 9999 ==> |sku| <= 100
  {
    sku, tries := MakeUnique(Slice(base, 100), Slice(base, 95), existing);
    FitsIff(base, 95, tries);
  }

  lemma {:induction false} DecimalLength(n: nat)
    ensures |Decimal(n)| <= 4 <==> n < 10000
  {
    DecimalNonEmpty(n);
    if n >= 10 {
      DecimalNonEmpty(n / 10);
      if n >= 100 {
        DecimalNonEmpty(n / 100);
        assert n / 10 / 10 == n / 100;
        if n >= 1000 {
          DecimalNonEmpty(n / 1000);
          assert n / 100 / 10 == n / 1000;
        }
      }
    }
  }

  /** The five characters the slices leave free hold the suffix of a full-length code exactly while
      the counter is below 10000. */
  lemma {:induction false} FitsIff(base: string, room: nat, i: nat)
    ensures i < 10000 ==> |Candidate(Slice(base, room + 5), Slice(base, room), i)| <= room + 5
    ensures |base| >= room ==> (|Candidate(Slice(base, room + 5), Slice(base, room), i)| <= room + 5 <==> i < 10000)
  {
    DecimalLength(i);
  }

  // -- What a candidate reads -------------------------------------------------

  predicate IsDigit(c: char) { '0' <= c <= '9' }

  /** The number a string of digits reads as. */
  function Reads(s: string): nat
    requires forall i :: 0 <= i < |s| ==> IsDigit(s[i])
  {
    if s == "" then 0
    else
      var last := s[|s| - 1];
      assert IsDigit(last);
      10 * Reads(s[..|s| - 1]) + (last as int - '0' as int)
  }

  /** A suffix is the counter's decimal digits, without leading zeros. */
  lemma {:induction false} DecimalReadsBack(n: nat)
    ensures forall i :: 0 <= i < |Decimal(n)| ==> IsDigit(Decimal(n)[i])
    ensures Reads(Decimal(n)) == n && (n > 0 ==> Decimal(n)[0] != '0')
  {
    DigitReads(n % 10);
    if n >= 10 {
      DecimalReadsBack(n / 10);
      DecimalNonEmpty(n / 10);
      var s := Decimal(n);
      assert s[..|s| - 1] == Decimal(n / 10);
    }
  }

  lemma {:induction false} DigitReads(d: nat)
    requires d < 10
    ensures IsDigit(Digit(d)) && Digit(d) as int - '0' as int == d
  {}

  /** The first candidate is the code itself; each later one is the stem, a hyphen and digits that read
      as its number. */
  lemma {:induction false} CandidateReads(first: string, stem: string, i: nat)
    ensures Candidate(first, stem, 0) == first
    ensures i > 0 ==>
              var c, n := Candidate(first, stem, i), |stem|;
              && |c| > n + 1 && c[..n] == stem && c[n] == '-'
              && (forall k :: n + 1 <= k < |c| ==> IsDigit(c[k])) && c[n + 1..] == Decimal(i) && Reads(Decimal(i)) == i
  {
    DecimalReadsBack(i);
    DecimalNonEmpty(i);
    var c := Candidate(first, stem, i);
    if i > 0 { assert c[|stem| + 1..] == Decimal(i); }
  }

  /** A slice keeps the front of a string that is too long, and all of one that is not. */
  lemma {:induction false} SliceKeepsFront(s: string, n: nat)
    ensures |s| <= n ==> Slice(s, n) == s
    ensures |s| > n ==> |Slice(s, n)| == n && Slice(s, n) <= s
  {}
}
