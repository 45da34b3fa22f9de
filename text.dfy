/**
 * Whitespace trimming as JavaScript performs it (`String.prototype.trim`, and
 * the `\s` class that express-validator's `trim()` sanitizer strips). Used by the
 * validators and by the `trim: true` setters of the User schema.
 */
module Text {

  /** The characters JavaScript counts as white space or line terminators. */
  predicate IsSpace(c: char)
  {
    var n := c as int;
    (9 <= n <= 13) || n == 32 || n == 0xA0 || n == 0x1680 || (0x2000 <= n <= 0x200A)
    || n == 0x2028 || n == 0x2029 || n == 0x202F || n == 0x205F || n == 0x3000 || n == 0xFEFF
  }

  predicate AllSpace(s: string)
  {
    forall k :: 0 <= k < |s| ==> IsSpace(s[k])
  }

  /** A string with no white space at either end. */
  predicate IsTrimmed(s: string)
  {
    s == [] || (!IsSpace(s[0]) && !IsSpace(s[|s| - 1]))
  }

  /** A non-empty string is all white space exactly when its first character is and the rest is. */
  lemma AllSpaceFirst(s: string)
    requires s != []
    ensures AllSpace(s) <==> IsSpace(s[0]) && AllSpace(s[1..])
  {
    if IsSpace(s[0]) && AllSpace(s[1..]) {
      forall k | 0 <= k < |s| ensures IsSpace(s[k]) {
        if k > 0 { assert s[k] == s[1..][k - 1]; }
      }
    }
  }

  /** The same, from the other end. */
  lemma AllSpaceLast(s: string)
    requires s != []
    ensures AllSpace(s) <==> IsSpace(s[|s| - 1]) && AllSpace(s[..|s| - 1])
  {
    if IsSpace(s[|s| - 1]) && AllSpace(s[..|s| - 1]) {
      forall k | 0 <= k < |s| ensures IsSpace(s[k]) {
        if k < |s| - 1 { assert s[k] == s[..|s| - 1][k]; }
      }
    }
  }

  /** `trim()`: drops the white space at both ends. */
  function Trim(s: string): (r: string)
    ensures IsTrimmed(r)
    ensures |r| <= |s|
    ensures r == [] <==> AllSpace(s)
    decreases |s|
  {
    if s == [] then []
    else if IsSpace(s[0]) then AllSpaceFirst(s); Trim(s[1..])
    else if IsSpace(s[|s| - 1]) then AllSpaceLast(s); Trim(s[..|s| - 1])
    else s
  }

  /** Trim strips exactly the white-space padding around a trimmed core. */
  lemma {:induction false} TrimPadded(p: string, x: string, q: string)
    requires AllSpace(p) && AllSpace(q) && IsTrimmed(x)
    ensures Trim(p + x + q) == x
    decreases |p| + |q|
  {
    var s := p + x + q;
    if x == [] {
      assert AllSpace(s) by {
        forall k | 0 <= k < |s| ensures IsSpace(s[k]) {
          if k < |p| { assert s[k] == p[k]; } else { assert s[k] == q[k - |p|]; }
        }
      }
    } else if p != [] {
      assert s[0] == p[0];
      assert s[1..] == p[1..] + x + q;
      assert AllSpace(p[1..]);
      TrimPadded(p[1..], x, q);
    } else if q != [] {
      var shorter := q[..|q| - 1];
      assert s == x + q;
      assert s[0] == x[0];
      assert s[|s| - 1] == q[|q| - 1];
      assert s[..|s| - 1] == p + x + shorter;
      assert AllSpace(shorter);
      TrimPadded(p, x, shorter);
    } else {
      assert s == x;
    }
  }

  /** A string that is already trimmed is left alone. */
  lemma TrimOfTrimmed(s: string)
    requires IsTrimmed(s)
    ensures Trim(s) == s
  {
    assert [] + s + [] == s;
    TrimPadded([], s, []);
  }

  lemma TrimIdempotent(s: string)
    ensures Trim(Trim(s)) == Trim(s)
  {
    TrimOfTrimmed(Trim(s));
  }
}
