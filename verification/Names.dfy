/** The name that a request carries, as src/web/routes.rs takes it: Rust's `trim` on a string. */
module Names {
  /** The characters that Rust's `trim` takes off: Unicode's White_Space. */
  predicate IsWhite(c: char) {
    var n := c as int;
    || 0x09 <= n <= 0x0D || n == 0x20 || n == 0x85 || n == 0xA0 || n == 0x1680 || 0x2000 <= n <= 0x200A
    || n == 0x2028 || n == 0x2029 || n == 0x202F || n == 0x205F || n == 0x3000
  }

  function Trim(s: string): (t: string)
    ensures |t| <= |s|
    ensures t == [] || (!IsWhite(t[0]) && !IsWhite(t[|t| - 1]))
    decreases |s|
  {
    if s == [] then []
    else if IsWhite(s[0]) then Trim(s[1..])
    else if IsWhite(s[|s| - 1]) then Trim(s[..|s| - 1])
    else s
  }

  predicate AllWhite(s: string) {
    forall c | c in s :: IsWhite(c)
  }

  /** t is s without some white space in front of it and behind it, and has none left at its ends. */
  ghost predicate Trimmed(s: string, t: string) {
    && (exists a, b :: AllWhite(a) && AllWhite(b) && s == a + t + b)
    && (t == [] || (!IsWhite(t[0]) && !IsWhite(t[|t| - 1])))
  }

  lemma {:induction false} TrimSplits(s: string) returns (a: string, b: string)
    ensures AllWhite(a) && AllWhite(b) && s == a + Trim(s) + b
    decreases |s|
  {
    a, b := [], [];
    if s == [] {
    } else if IsWhite(s[0]) {
      var front, back := TrimSplits(s[1..]);
      a, b := [s[0]] + front, back;
      assert s == [s[0]] + (front + Trim(s) + back);
    } else if IsWhite(s[|s| - 1]) {
      var front, back := TrimSplits(s[..|s| - 1]);
      a, b := front, back + [s[|s| - 1]];
      assert s == (front + Trim(s) + back) + [s[|s| - 1]];
    }
  }

  lemma {:induction false} TrimFront(a: string, s: string)
    requires AllWhite(a)
    ensures Trim(a + s) == Trim(s)
  {
    if a == [] {
      assert [] + s == s;
    } else {
      assert (a + s)[0] == a[0] && (a + s)[1..] == a[1..] + s;
      TrimFront(a[1..], s);
    }
  }

  lemma {:induction false} TrimBack(s: string, b: string)
    requires AllWhite(b)
    ensures Trim(s + b) == Trim(s)
    decreases |s|, |b|
  {
    if b == [] {
      assert s + [] == s;
    } else if s == [] {
      assert [] + b == b + [];
      TrimFront(b, []);
    } else if IsWhite(s[0]) {
      assert (s + b)[1..] == s[1..] + b;
      TrimBack(s[1..], b);
    } else {
      assert (s + b)[..|s + b| - 1] == s + b[..|b| - 1];
      TrimBack(s, b[..|b| - 1]);
    }
  }

  /** The trimmed name is the one text that is left when the white space at both ends is gone. */
  lemma TrimExact(s: string, t: string)
    ensures t == Trim(s) <==> Trimmed(s, t)
  {
    var a, b := TrimSplits(s);
    assert Trimmed(s, Trim(s));
    if Trimmed(s, t) {
      var front, back :| AllWhite(front) && AllWhite(back) && s == front + t + back;
      TrimFront(front, t);
      TrimBack(front + t, back);
    }
  }

  /** A name is rejected as blank exactly when it is nothing but white space. */
  lemma TrimBlank(s: string)
    ensures Trim(s) == [] <==> AllWhite(s)
  {
    var a, b := TrimSplits(s);
    if AllWhite(s) {
      assert s + [] == s;
      TrimFront(s, []);
    }
  }
}
