/** String helpers shared by the models: white-space trimming as Go's
    standard library does it, blank-string fall-backs, and the order of strings
    (by code point, which is also the order of their UTF-8 bytes). */
module Text {
  import opened Ordering

  /** The white space of Unicode. */
  predicate IsSpace(c: char) {
    var n := c as int;
    || 0x09 <= n <= 0x0D || n == 0x20 || n == 0x85 || n == 0xA0 || n == 0x1680
    || 0x2000 <= n <= 0x200A || n == 0x2028 || n == 0x2029 || n == 0x202F || n == 0x205F || n == 0x3000
  }

  function TrimLeft(s: string): (t: string)
    ensures t == "" || !IsSpace(t[0])
    ensures t == "" || (s != "" && t[|t| - 1] == s[|s| - 1])
  {
    if s != "" && IsSpace(s[0]) then TrimLeft(s[1..]) else s
  }

  function TrimRight(s: string): (t: string)
    ensures t == "" || !IsSpace(t[|t| - 1])
    ensures t == "" || (s != "" && t[0] == s[0])
  {
    if s != "" && IsSpace(s[|s| - 1]) then TrimRight(s[..|s| - 1]) else s
  }

  function TrimSpace(s: string): (t: string)
    ensures t == "" || (!IsSpace(t[0]) && !IsSpace(t[|t| - 1]))
  {
    TrimRight(TrimLeft(s))
  }

  predicate Blank(s: string) {
    TrimSpace(s) == ""
  }

  lemma TrimmedAlready(s: string)
    requires s != "" && !IsSpace(s[0]) && !IsSpace(s[|s| - 1])
    ensures TrimSpace(s) == s
  {
  }

  // ---------- what the helpers mean, character by character ----------

  /** Characters that count as white space: five controls, the blanks of Latin-1, and the spaces and
      separators beyond it. */
  lemma SpacesAre(c: char)
    ensures IsSpace(c) <==>
            c in {'\t', '\n', '\r', ' ', '\U{0B}', '\U{0C}', '\U{85}', '\U{A0}', '\U{1680}', '\U{2000}', '\U{2001}',
                  '\U{2002}', '\U{2003}', '\U{2004}', '\U{2005}', '\U{2006}', '\U{2007}', '\U{2008}', '\U{2009}',
                  '\U{200A}', '\U{2028}', '\U{2029}', '\U{202F}', '\U{205F}', '\U{3000}'}
  {
  }

  ghost predicate AllSpace(s: string) {
    forall c :: c in s ==> IsSpace(c)
  }

  lemma {:induction false} LeftIsSpace(s: string) returns (cut: string)
    ensures s == cut + TrimLeft(s) && AllSpace(cut)
  {
    if s != "" && IsSpace(s[0]) {
      cut := LeftIsSpace(s[1..]);
      cut := [s[0]] + cut;
    } else {
      cut := "";
    }
  }

  lemma {:induction false} RightIsSpace(s: string) returns (cut: string)
    ensures s == TrimRight(s) + cut && AllSpace(cut)
    decreases |s|
  {
    if s != "" && IsSpace(s[|s| - 1]) {
      cut := RightIsSpace(s[..|s| - 1]);
      cut := cut + [s[|s| - 1]];
    } else {
      cut := "";
    }
  }

  /** Trimming cuts off white space at both ends, and nothing else. */
  lemma TrimIs(s: string) returns (left: string, right: string)
    ensures s == left + TrimSpace(s) + right && AllSpace(left) && AllSpace(right)
  {
    left := LeftIsSpace(s);
    right := RightIsSpace(TrimLeft(s));
  }

  /** A string is blank exactly if it holds nothing but white space. */
  lemma BlankIs(s: string)
    ensures Blank(s) <==> AllSpace(s)
  {
    var left, right := TrimIs(s);
    var t := TrimSpace(s);
    if t != "" {
      assert s[|left|] == t[0];
    }
  }

  lemma TrimTwice(s: string)
    ensures TrimSpace(TrimSpace(s)) == TrimSpace(s)
  {
    var t := TrimSpace(s);
    if t != "" {
      TrimmedAlready(t);
    }
  }

  /** The first argument that is not blank, as it is, or the empty string. */
  function FirstNonEmpty(a: string, b: string): string {
    if !Blank(a) then a else if !Blank(b) then b else ""
  }

  function FallbackId(value: string, fallback: string): string {
    if !Blank(value) then TrimSpace(value) else fallback
  }

  /** Lower case, as far as the result can be a basic letter. */
  function Lower(c: char): char {
    if 'A' <= c <= 'Z' then (c as int + 32) as char
    else if c as int == 0x130 then 'i' else if c as int == 0x212A then 'k' else c
  }

  function ToLower(s: string): string {
    seq(|s|, i requires 0 <= i < |s| => Lower(s[i]))
  }

  /** Lower-casing keeps the length, turns the basic capitals into small letters, and keeps every other
      basic character. */
  lemma LowerIs(s: string)
    ensures |ToLower(s)| == |s|
    ensures forall i :: 0 <= i < |s| && 'A' <= s[i] <= 'Z' ==>
              ToLower(s)[i] as int == s[i] as int + ('a' as int - 'A' as int)
    ensures forall i :: 0 <= i < |s| && (s[i] as int) < 128 && !('A' <= s[i] <= 'Z') ==> ToLower(s)[i] == s[i]
  {
  }

  predicate Less(a: string, b: string) {
    if b == "" then false
    else if a == "" then true
    else a[0] < b[0] || (a[0] == b[0] && Less(a[1..], b[1..]))
  }

  /** Below: at the first difference by code point, or as a proper beginning. */
  ghost predicate DifferAt(a: string, b: string, k: nat) {
    && k <= |a| && k < |b| && a[..k] == b[..k]
    && (k == |a| || (a[k] as int) < (b[k] as int))
  }

  /** MAIN RESULT.  The order of strings is lexicographic by code point. */
  lemma {:induction false} LessIsLexical(a: string, b: string)
    ensures Less(a, b) <==>
            exists k: nat :: k <= |a| && k < |b| && a[..k] == b[..k] && (k == |a| || (a[k] as int) < (b[k] as int))
  {
    LessDiffers(a, b);
    assert forall k: nat :: DifferAt(a, b, k) <==>
             k <= |a| && k < |b| && a[..k] == b[..k] && (k == |a| || (a[k] as int) < (b[k] as int));
    hide Less;
    if k: nat :| k <= |a| && k < |b| && a[..k] == b[..k] && (k == |a| || (a[k] as int) < (b[k] as int)) {
      assert DifferAt(a, b, k);
    }
  }

  lemma {:induction false} LessDiffers(a: string, b: string)
    ensures Less(a, b) <==> exists k: nat :: DifferAt(a, b, k)
    decreases |a|
  {
    if a == "" && b != "" {
      assert DifferAt(a, b, 0);
    } else if a != "" && b != "" {
      LessDiffers(a[1..], b[1..]);
      if a[0] < b[0] {
        assert DifferAt(a, b, 0);
      }
      if a[0] == b[0] {
        if k: nat :| DifferAt(a[1..], b[1..], k) {
          assert a == [a[0]] + a[1..] && b == [b[0]] + b[1..];
          assert a[..k + 1] == [a[0]] + a[1..][..k] && b[..k + 1] == [b[0]] + b[1..][..k];
          assert DifferAt(a, b, k + 1);
        }
        if k: nat :| DifferAt(a, b, k) {
          assert k > 0;
          assert a[1..][..k - 1] == a[..k][1..] && b[1..][..k - 1] == b[..k][1..];
          assert DifferAt(a[1..], b[1..], k - 1);
        }
      } else if k: nat :| DifferAt(a, b, k) {
        assert k > 0 ==> a[..k][0] == b[..k][0];
      }
    }
  }

  /** Strings of equal length compare before what follows them. */
  lemma {:induction false} LessJoined(a: string, b: string, c: string, d: string)
    requires |a| == |b|
    ensures Less(a + c, b + d) <==> Less(a, b) || (a == b && Less(c, d))
  {
    if a == "" {
      assert a + c == c && b + d == d;
    } else {
      assert (a + c)[1..] == a[1..] + c && (b + d)[1..] == b[1..] + d;
      LessJoined(a[1..], b[1..], c, d);
      assert a == [a[0]] + a[1..] && b == [b[0]] + b[1..];
    }
  }

  lemma {:induction false} LessTotal(a: string, b: string)
    ensures (if Less(a, b) then 1 else 0) + (if a == b then 1 else 0) + (if Less(b, a) then 1 else 0) == 1
    decreases |a|
  {
    if a != "" && b != "" && a[0] == b[0] {
      LessTotal(a[1..], b[1..]);
      assert a == [a[0]] + a[1..] && b == [b[0]] + b[1..];
    }
  }

  lemma {:induction false} LessTransitive(a: string, b: string, c: string)
    requires Less(a, b) && Less(b, c)
    ensures Less(a, c)
    decreases |a|
  {
    if a != "" && a[0] == b[0] && b[0] == c[0] {
      LessTransitive(a[1..], b[1..], c[1..]);
    }
  }

  lemma LessIsOrder()
    ensures StrictWeak(Less)
  {
    forall a, b ensures Less(a, b) ==> !Less(b, a) {
      LessTotal(a, b);
    }
    forall a, b, c ensures Less(a, c) ==> Less(a, b) || Less(b, c) {
      LessTotal(a, b);
      if Less(a, c) && Less(b, a) {
        LessTransitive(b, a, c);
      }
    }
  }

  ghost predicate StrictlySorted(s: seq<string>) {
    Strictly(s, Less)
  }

  function SortStrings(s: seq<string>): seq<string> {
    Sort(s, Less)
  }

  /** A list without duplicates comes out strictly sorted, with the same elements. */
  lemma StringsSorted(s: seq<string>)
    requires NoDuplicates(s)
    ensures StrictlySorted(SortStrings(s)) && |SortStrings(s)| == |s|
    ensures forall x :: x in SortStrings(s) <==> x in s
  {
    LessIsOrder();
    forall x: string, y: string | x != y ensures Less(x, y) || Less(y, x) {
      LessTotal(x, y);
    }
    SortSorts(s, Less);
    SameMembers(SortStrings(s), s);
    SortIsStrict(s, Less);
  }

  /** A strictly sorted list of strings is determined by its elements. */
  lemma SortedIsUnique(s: seq<string>, t: seq<string>)
    requires StrictlySorted(s) && StrictlySorted(t)
    requires forall x :: x in s <==> x in t
    ensures s == t
  {
    LessIsOrder();
    StrictIsUnique(s, t, Less);
  }
}
