/**
 Go's string order, which the pollers use on heights instead of numeric order
 (internal/infra/blockchain/ethereum/block.go:163, internal/infra/blockchain/solana/block.go:186).
 */
module HexOrder {
  import opened HexNumbers

  /** The operator < on Go strings (ASCII contents): dictionary order. */
  predicate Less(a: string, b: string) {
    b != "" && (a == "" || a[0] < b[0] || (a[0] == b[0] && Less(a[1..], b[1..])))
  }

  /** The quantities a node reports: "0x", lower-case digits, no leading zero. */
  predicate Canonical(h: Hex) {
    |h| > 2 && h[..2] == "0x" && AllLowerDigits(h[2..]) && (|h| > 3 ==> h[2] != '0')
  }

  lemma HexFromIntIsCanonical(i: int64)
    ensures Canonical(HexFromInt(i)) <==> i >= 0
  {
    if i < 0 {
      assert HexFromInt(i)[2..][0] == '-';
    } else {
      assert HexFromInt(i)[2..] == Digits(i);
    }
  }

  lemma LowerIsHex(s: string)
    requires AllLowerDigits(s)
    ensures AllHexDigits(s)
  {
    forall i | 0 <= i < |s| ensures IsHexDigit(s[i]) {
      assert IsLowerDigit(s[i]);
    }
  }

  lemma {:induction false} LessSnoc(a: string, b: string, c: char, d: char)
    requires |a| == |b|
    ensures Less(a + [c], b + [d]) <==> Less(a, b) || (a == b && c < d)
  {
    if a != "" {
      assert (a + [c])[1..] == a[1..] + [c] && (b + [d])[1..] == b[1..] + [d];
      LessSnoc(a[1..], b[1..], c, d);
      assert a == [a[0]] + a[1..] && b == [b[0]] + b[1..];
    }
  }

  /** On lower-case digit strings of one length, string order is numeric order and
      equal numbers are equal strings. */
  lemma {:induction false} SameLengthOrder(a: string, b: string)
    requires AllLowerDigits(a) && AllLowerDigits(b) && |a| == |b|
    requires AllHexDigits(a) && AllHexDigits(b)
    ensures Less(a, b) <==> Value(a) < Value(b)
    ensures a == b <==> Value(a) == Value(b)
  {
    if a != "" {
      var k := |a| - 1;
      SameLengthOrder(a[..k], b[..k]);
      LessSnoc(a[..k], b[..k], a[k], b[k]);
      assert a == a[..k] + [a[k]] && b == b[..k] + [b[k]];
      assert IsLowerDigit(a[k]) && IsLowerDigit(b[k]);
    }
  }

  /** Comparing with a longer string only looks at its leading part. */
  lemma {:induction false} LessThanLonger(a: string, b: string)
    requires |a| < |b|
    ensures Less(a, b) <==> Less(a, b[..|a|]) || a == b[..|a|]
    ensures Less(b, a) <==> Less(b[..|a|], a)
  {
    if a != "" {
      LessThanLonger(a[1..], b[1..]);
      assert b[..|a|][1..] == b[1..][..|a| - 1];
      assert a == [a[0]] + a[1..] && b[..|a|] == [b[0]] + b[..|a|][1..];
    }
  }

  lemma {:induction false} NonZeroLeads(a: string)
    requires AllLowerDigits(a) && AllHexDigits(a) && a != "" && a[0] != '0'
    ensures Value(a) > 0
  {
    if |a| > 1 {
      NonZeroLeads(a[..|a| - 1]);
    } else {
      assert IsLowerDigit(a[0]);
    }
  }

  /** Without leading zeros, more digits make a larger number. */
  lemma {:induction false} LongerIsLarger(a: string, b: string)
    requires AllLowerDigits(a) && AllHexDigits(a) && AllHexDigits(b)
    requires |a| > |b| && a[0] != '0'
    ensures Value(a) > Value(b)
  {
    if b == "" {
      NonZeroLeads(a);
    } else {
      LongerIsLarger(a[..|a| - 1], b[..|b| - 1]);
    }
  }

  /** The number written by the first n digits of a height. */
  ghost function Leading(h: Hex, n: nat): nat
    requires Canonical(h) && n + 2 <= |h|
    requires AllHexDigits(h[2..])
  {
    Value(h[2..2 + n])
  }

  lemma {:induction false} PrefixLess(p: string, a: string, b: string)
    ensures Less(p + a, p + b) <==> Less(a, b)
  {
    if p == "" {
      assert "" + a == a && "" + b == b;
    } else {
      assert (p + a)[1..] == p[1..] + a && (p + b)[1..] == p[1..] + b;
      PrefixLess(p[1..], a, b);
    }
  }

  lemma CanonicalDigits(h: Hex)
    requires Canonical(h)
    ensures AllHexDigits(h[2..]) && h == "0x" + h[2..]
  {
    LowerIsHex(h[2..]);
  }

  /** Go's h < k on canonical heights, in numbers: the shorter one's digits are
      compared with as many leading digits of the longer one. */
  lemma LessOnCanonical(h: Hex, k: Hex)
    requires Canonical(h) && Canonical(k)
    ensures AllHexDigits(h[2..]) && AllHexDigits(k[2..])
    ensures |h| == |k| ==> (Less(h, k) <==> Value(h[2..]) < Value(k[2..]))
    ensures |h| < |k| ==> (Less(h, k) <==> Value(h[2..]) <= Leading(k, |h| - 2))
    ensures |h| > |k| ==> (Less(h, k) <==> Leading(h, |k| - 2) < Value(k[2..]))
  {
    CanonicalDigits(h);
    CanonicalDigits(k);
    var a, b := h[2..], k[2..];
    PrefixLess("0x", a, b);
    if |h| == |k| {
      SameLengthOrder(a, b);
    } else if |h| < |k| {
      LessThanLonger(a, b);
      assert b[..|a|] == k[2..|h|];
      SameLengthOrder(a, b[..|a|]);
    } else {
      LessThanLonger(b, a);
      assert a[..|b|] == h[2..|k|];
      SameLengthOrder(a[..|b|], b);
    }
  }

  /** Canonical heights that are numerically ordered are ordered by length first. */
  lemma SmallerIsNotLonger(h: Hex, k: Hex)
    requires Canonical(h) && Canonical(k)
    ensures AllHexDigits(h[2..]) && AllHexDigits(k[2..])
    ensures Value(h[2..]) <= Value(k[2..]) ==> |h| <= |k|
  {
    CanonicalDigits(h);
    CanonicalDigits(k);
    if |h| > |k| {
      LongerIsLarger(h[2..], k[2..]);
    }
  }

  lemma {:induction false} AllFIsLargest(a: string, b: string)
    requires AllHexDigits(a) && AllHexDigits(b) && |a| == |b|
    requires forall i :: 0 <= i < |b| ==> b[i] == 'f'
    ensures Value(a) <= Value(b)
  {
    if a != "" {
      AllFIsLargest(a[..|a| - 1], b[..|b| - 1]);
    }
  }
}
