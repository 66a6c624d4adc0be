/** The string tests of the handlers: what strings.TrimSpace removes and what len counts. */
module Text {

  /** The characters unicode.IsSpace accepts. */
  predicate Space(c: char) {
    var n := c as int;
    || 9 <= n <= 13
    || 0x2000 <= n <= 0x200a
    || n in {0x20, 0x85, 0xa0, 0x1680, 0x2028, 0x2029, 0x202f, 0x205f, 0x3000}
  }

  function TrimLeft(s: string): string {
    if s != [] && Space(s[0]) then TrimLeft(s[1..]) else s
  }

  function TrimRight(s: string): string {
    if s != [] && Space(s[|s| - 1]) then TrimRight(s[..|s| - 1]) else s
  }

  function Trim(s: string): string {
    TrimRight(TrimLeft(s))
  }

  predicate Blank(s: string) {
    Trim(s) == []
  }

  lemma {:induction false} TrimRightFixed(s: string)
    ensures TrimRight(TrimRight(s)) == TrimRight(s)
    ensures TrimRight(s) <= s
  {
    if s != [] && Space(s[|s| - 1]) { TrimRightFixed(s[..|s| - 1]); }
  }

  lemma {:induction false} TrimLeftStops(s: string)
    ensures TrimLeft(s) != [] ==> !Space(TrimLeft(s)[0])
  {
    if s != [] && Space(s[0]) { TrimLeftStops(s[1..]); }
  }

  /** Trimming twice trims once, so a reason that passes the handler passes the repository. */
  lemma TrimTwice(s: string)
    ensures Trim(Trim(s)) == Trim(s)
    ensures Blank(Trim(s)) <==> Blank(s)
  {
    TrimRightFixed(TrimLeft(s));
    TrimLeftStops(s);
  }

  /** What trimming keeps: the part between the first and the last character that is no
      space, and nothing else; blank is having no such character. */
  lemma TrimExactly(s: string) returns (i: nat, j: nat)
    ensures i <= j <= |s| && Trim(s) == s[i..j]
    ensures forall k :: 0 <= k < i || j <= k < |s| ==> Space(s[k])
    ensures i < j ==> !Space(s[i]) && !Space(s[j - 1])
    ensures Blank(s) <==> forall k :: 0 <= k < |s| ==> Space(s[k])
  {
    i := LeftCut(s);
    var left := TrimLeft(s);
    var n := RightCut(left);
    assert left[..n] == s[i..i + n];
    j := i + n;
    forall k | j <= k < |s| ensures Space(s[k]) {
      assert s[k] == left[k - i];
    }
  }

  lemma {:induction false} LeftCut(s: string) returns (i: nat)
    ensures i <= |s| && TrimLeft(s) == s[i..] && (forall k :: 0 <= k < i ==> Space(s[k]))
    ensures i < |s| ==> !Space(s[i])
  {
    if s != [] && Space(s[0]) {
      var n := LeftCut(s[1..]);
      i := n + 1;
      assert s[1..][n..] == s[i..];
      forall k | 0 <= k < i ensures Space(s[k]) {
        assert k > 0 ==> s[k] == s[1..][k - 1];
      }
    } else {
      i := 0;
    }
  }

  lemma {:induction false} RightCut(s: string) returns (n: nat)
    ensures n <= |s| && TrimRight(s) == s[..n] && (forall k :: n <= k < |s| ==> Space(s[k]))
    ensures n > 0 ==> !Space(s[n - 1])
  {
    if s != [] && Space(s[|s| - 1]) {
      n := RightCut(s[..|s| - 1]);
      assert s[..|s| - 1][..n] == s[..n];
    } else {
      n := |s|;
    }
  }
}
