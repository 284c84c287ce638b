/** The white-space operations of Go's strings and unicode packages that the modelled code uses. */
module Text {

  /** unicode.IsSpace */
  predicate IsSpace(c: char) {
    || c in "\t\n\U{0B}\U{0C}\r \U{85}\U{A0}\U{1680}\U{2028}\U{2029}\U{202F}\U{205F}\U{3000}"
    || '\U{2000}' <= c <= '\U{200A}'
  }

  function TrimLeft(s: string, cut: char -> bool): (r: string)
    ensures |r| <= |s| && r == s[|s| - |r|..] && forall i :: 0 <= i < |s| - |r| ==> cut(s[i])
    ensures r != [] ==> !cut(r[0])
  {
    if s != [] && cut(s[0]) then TrimLeft(s[1..], cut) else s
  }

  function TrimRight(s: string, cut: char -> bool): (r: string)
    ensures r <= s && forall i :: |r| <= i < |s| ==> cut(s[i])
    ensures r != [] ==> !cut(r[|r| - 1])
  {
    if s != [] && cut(s[|s| - 1]) then TrimRight(s[..|s| - 1], cut) else s
  }

  function TrimSpace(s: string): string {
    TrimRight(TrimLeft(s, IsSpace), IsSpace)
  }

  /** What is left has no white space at either end, and nothing but white space was cut off. */
  lemma {:induction false} TrimSpaceMeans(s: string) returns (i: nat)
    ensures var r := TrimSpace(s);
      && i + |r| <= |s| && r == s[i..i + |r|]
      && (forall k :: 0 <= k < i || i + |r| <= k < |s| ==> IsSpace(s[k]))
      && (r != "" ==> !IsSpace(r[0]) && !IsSpace(r[|r| - 1]))
  {
    hide IsSpace, TrimLeft, TrimRight;
    var l := TrimLeft(s, IsSpace);
    var r := TrimRight(l, IsSpace);
    i := |s| - |l|;
    forall k | 0 <= k < i || i + |r| <= k < |s| ensures IsSpace(s[k]) {
      assert k >= i ==> s[k] == l[k - i];
    }
  }

  ghost predicate IsBlank(s: string) {
    forall i :: 0 <= i < |s| ==> IsSpace(s[i])
  }

  /** Trimming leaves nothing exactly of blank texts. */
  lemma {:induction false} BlankIff(s: string)
    ensures TrimSpace(s) == "" <==> IsBlank(s)
  {
    hide IsSpace, TrimLeft, TrimRight;
    var l := TrimLeft(s, IsSpace);
    if l == "" {
      assert forall i :: 0 <= i < |s| ==> IsSpace(s[i]);
    } else {
      assert l[0] == s[|s| - |l|];
    }
  }

  /** s without its white space. */
  function Squeeze(s: string): string {
    if s == [] then [] else if IsSpace(s[0]) then Squeeze(s[1..]) else [s[0]] + Squeeze(s[1..])
  }

  lemma {:induction false} SqueezeConcat(a: string, b: string)
    ensures Squeeze(a + b) == Squeeze(a) + Squeeze(b)
  {
    if a == [] {
      assert a + b == b;
    } else {
      assert (a + b)[0] == a[0] && (a + b)[1..] == a[1..] + b;
      SqueezeConcat(a[1..], b);
    }
  }

  lemma {:induction false} SqueezeBlank(s: string)
    requires forall i :: 0 <= i < |s| ==> IsSpace(s[i])
    ensures Squeeze(s) == []
  {
    if s != [] {
      SqueezeBlank(s[1..]);
    }
  }

  /** Blanks in front and behind do not count. */
  lemma {:induction false} SqueezeMiddle(a: string, s: string, b: string)
    requires (forall i :: 0 <= i < |a| ==> IsSpace(a[i])) && forall i :: 0 <= i < |b| ==> IsSpace(b[i])
    ensures Squeeze(a + s) == Squeeze(s) == Squeeze(s + b)
  {
    hide IsSpace, Squeeze;
    SqueezeConcat(a, s);
    SqueezeConcat(s, b);
    SqueezeBlank(a);
    SqueezeBlank(b);
  }

  /** Trimming white space at either end removes nothing but white space. */
  lemma {:induction false} TrimKeepsSqueeze(s: string, cut: char -> bool)
    requires forall c :: cut(c) ==> IsSpace(c)
    ensures Squeeze(TrimLeft(s, cut)) == Squeeze(s)
    ensures Squeeze(TrimRight(s, cut)) == Squeeze(s)
  {
    hide IsSpace, Squeeze, TrimLeft, TrimRight;
    var l, r := TrimLeft(s, cut), TrimRight(s, cut);
    var n := |s| - |l|;
    assert s == s[..n] + l && s == r + s[|r|..];
    SqueezeMiddle(s[..n], l, []);
    SqueezeMiddle([], r, s[|r|..]);
  }
}
