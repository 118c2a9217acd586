/** Strings in the order the sort routines use, sorted duplicate-free lists of them, and ASCII case folding. */
module Text {

  predicate Less(a: string, b: string) {
    if a == "" then b != ""
    else b != "" && (a[0] < b[0] || (a[0] == b[0] && Less(a[1..], b[1..])))
  }

  /** One string is less than another when it is a proper beginning of it, or has the smaller character where they
      first differ. */
  lemma {:induction false} LessIff(a: string, b: string)
    ensures Less(a, b)
       <==> exists k :: 0 <= k <= |a| && k <= |b| && a[..k] == b[..k] && k < |b| && (k == |a| || a[k] < b[k])
  {
    if a == "" {
      assert a[..0] == b[..0];
    } else if b != "" && a[0] == b[0] {
      LessIff(a[1..], b[1..]);
      if Less(a, b) {
        var k :| 0 <= k <= |a| - 1 && k <= |b| - 1 && a[1..][..k] == b[1..][..k] && k < |b| - 1
                 && (k == |a| - 1 || a[1..][k] < b[1..][k]);
        assert a[..k + 1] == [a[0]] + a[1..][..k] && b[..k + 1] == [b[0]] + b[1..][..k];
      } else {
        forall k | 0 <= k <= |a| && k <= |b| && a[..k] == b[..k] && k < |b| && (k == |a| || a[k] < b[k])
          ensures false
        {
          BothTails(a, b, k);
        }
      }
    } else if b != "" {
      assert a[..0] == b[..0];
      forall k | 0 < k <= |a| && k <= |b| ensures a[..k] != b[..k] { assert a[..k][0] != b[..k][0]; }
    }
  }

  lemma BothTails(a: string, b: string, k: nat)
    requires a != "" && b != "" && a[0] == b[0]
    requires k <= |a| && k <= |b| && a[..k] == b[..k] && k < |b| && (k == |a| || a[k] < b[k])
    ensures exists j :: 0 <= j <= |a| - 1 && j <= |b| - 1 && a[1..][..j] == b[1..][..j] && j < |b| - 1
                        && (j == |a| - 1 || a[1..][j] < b[1..][j])
  {
    assert k > 0;
    assert a[1..][..k - 1] == a[..k][1..] && b[1..][..k - 1] == b[..k][1..];
  }

  lemma {:induction false} LessTransitive(a: string, b: string, c: string)
    requires Less(a, b) && Less(b, c)
    ensures Less(a, c)
  {
    if a != "" && a[0] == b[0] && b[0] == c[0] {
      LessTransitive(a[1..], b[1..], c[1..]);
    }
  }

  lemma {:induction false} LessTotal(a: string, b: string)
    ensures Less(a, b) || Less(b, a) || a == b
    ensures !(Less(a, b) && Less(b, a)) && (a == b ==> !Less(a, b))
  {
    if a != "" && b != "" {
      LessTotal(a[1..], b[1..]);
      if a[0] == b[0] && a[1..] == b[1..] {
        assert a == [a[0]] + a[1..] && b == [b[0]] + b[1..];
      }
    }
  }

  predicate StrictlySorted(s: seq<string>) {
    forall i, j | 0 <= i < j < |s| :: Less(s[i], s[j])
  }

  function Insert(s: seq<string>, x: string): (r: seq<string>)
    requires StrictlySorted(s)
    ensures StrictlySorted(r)
    ensures forall y :: y in r <==> y in s || y == x
    ensures |r| == if x in s then |s| else |s| + 1
  {
    if s == [] then [x]
    else if s[0] == x then s
    else if Less(x, s[0]) then
      assert forall j | 0 <= j < |s| :: Less(x, s[j]) by {
        forall j | 0 <= j < |s| ensures Less(x, s[j]) {
          if j > 0 { LessTransitive(x, s[0], s[j]); }
        }
      }
      assert x !in s by {
        if x in s { LessTotal(x, x); }
      }
      [x] + s
    else
      LessTotal(x, s[0]);
      var rest := Insert(s[1..], x);
      assert forall y :: y in s <==> y == s[0] || y in s[1..];
      assert forall j | 0 <= j < |rest| :: Less(s[0], rest[j]) by {
        forall j | 0 <= j < |rest| ensures Less(s[0], rest[j]) {
          assert rest[j] in rest;
        }
      }
      [s[0]] + rest
  }

  /** Sorting followed by dropping duplicates. */
  function SortDedup(s: seq<string>): (r: seq<string>)
    ensures StrictlySorted(r)
    ensures forall y :: y in r <==> y in s
    ensures |r| <= |s|
  {
    if s == [] then [] else Insert(SortDedup(s[1..]), s[0])
  }

  /** A sorted duplicate-free list is determined by its elements. */
  lemma {:induction false} SortedUnique(a: seq<string>, b: seq<string>)
    requires StrictlySorted(a) && StrictlySorted(b)
    requires forall y :: y in a <==> y in b
    ensures a == b
  {
    assert |b| > 0 ==> b[0] in b;
    if a != [] {
      assert a[0] in a;
      if a[0] != b[0] {
        LessTotal(a[0], b[0]);
      }
      forall y ensures y in a[1..] <==> y in b[1..] {
        TailMembers(a, y);
        TailMembers(b, y);
      }
      SortedUnique(a[1..], b[1..]);
    }
  }

  lemma TailMembers(a: seq<string>, y: string)
    requires StrictlySorted(a) && a != []
    ensures y in a[1..] <==> y in a && y != a[0]
  {
    LessTotal(a[0], a[0]);
    if y in a[1..] {
      var j :| 0 <= j < |a| - 1 && a[1..][j] == y;
      assert Less(a[0], a[j + 1]);
    }
  }

  function LowerChar(c: char): char {
    if 'A' <= c <= 'Z' then c - 'A' + 'a' else c
  }

  function FoldCase(s: string): string {
    seq(|s|, i requires 0 <= i < |s| => LowerChar(s[i]))
  }

  predicate EqualIgnoringCase(a: string, b: string) {
    FoldCase(a) == FoldCase(b)
  }

  /** Strings are equal without case when each pair of characters is the same, or the two cases of one ASCII letter. */
  lemma EqualIgnoringCaseIff(a: string, b: string)
    ensures EqualIgnoringCase(a, b)
       <==> |a| == |b| && forall i | 0 <= i < |a| ::
              a[i] == b[i] || ('A' <= a[i] <= 'Z' && b[i] as int == a[i] as int + 32)
              || ('A' <= b[i] <= 'Z' && a[i] as int == b[i] as int + 32)
  {
    var x, y := FoldCase(a), FoldCase(b);
    assert forall i | 0 <= i < |a| :: x[i] == LowerChar(a[i]);
    assert forall i | 0 <= i < |b| :: y[i] == LowerChar(b[i]);
    if |a| == |b| && forall i | 0 <= i < |a| :: LowerChar(a[i]) == LowerChar(b[i]) {
      assert x == y;
    }
  }

  /** The Unicode White_Space characters, which trimming removes. */
  predicate IsSpace(c: char) {
    '\U{0009}' <= c <= '\U{000D}' || c == ' ' || c == '\U{0085}' || c == '\U{00A0}' || c == '\U{1680}'
    || '\U{2000}' <= c <= '\U{200A}' || c == '\U{2028}' || c == '\U{2029}' || c == '\U{202F}'
    || c == '\U{205F}' || c == '\U{3000}'
  }

  /** By code point. */
  lemma SpacesAre(c: char)
    ensures var n := c as int;
            IsSpace(c) <==> 9 <= n <= 13 || 0x2000 <= n <= 0x200A
                            || n in {0x20, 0x85, 0xA0, 0x1680, 0x2028, 0x2029, 0x202F, 0x205F, 0x3000}
  {
  }

  predicate AllSpace(s: string) {
    forall c <- s :: IsSpace(c)
  }

  predicate NoSpace(s: string) {
    forall c <- s :: !IsSpace(c)
  }

  function TrimStart(s: string): string {
    if s != "" && IsSpace(s[0]) then TrimStart(s[1..]) else s
  }

  function TrimEnd(s: string): string {
    if s != "" && IsSpace(s[|s| - 1]) then TrimEnd(s[..|s| - 1]) else s
  }

  function Trim(s: string): string {
    TrimEnd(TrimStart(s))
  }

  lemma {:induction false} TrimStartEmpty(s: string)
    ensures TrimStart(s) == "" <==> AllSpace(s)
    ensures TrimStart(s) != "" ==> !IsSpace(TrimStart(s)[0])
  {
    hide IsSpace;
    if s != "" && IsSpace(s[0]) {
      TrimStartEmpty(s[1..]);
      assert forall c :: c in s <==> c == s[0] || c in s[1..];
    }
  }

  lemma {:induction false} TrimEndKeeps(s: string)
    requires s != "" && !IsSpace(s[0])
    ensures TrimEnd(s) != ""
  {
    hide IsSpace;
    if IsSpace(s[|s| - 1]) {
      TrimEndKeeps(s[..|s| - 1]);
    }
  }

  /** Trimming leaves nothing exactly when there is only white space. */
  lemma TrimsToNothing(s: string)
    ensures Trim(s) == "" <==> AllSpace(s)
  {
    hide TrimStart, TrimEnd, IsSpace, AllSpace;
    TrimStartEmpty(s);
    if TrimStart(s) != "" {
      TrimEndKeeps(TrimStart(s));
    } else {
      TrimNothing();
    }
  }

  lemma TrimNothing()
    ensures TrimEnd("") == ""
  {
  }
}
