/**
 * The three Python string operations the slug chain uses, on ASCII text:
 * `str.lower()`, `str.strip()` (no argument) and `str.replace(old, new)`.
 */
module Text {

  /** An ASCII capital letter, the only characters `Lower` changes. */
  predicate IsUpper(c: char) {
    'A' <= c <= 'Z'
  }

  /** The characters Python's argument-less `str.strip()` removes, restricted to ASCII:
      tab, line feed, vertical tab, form feed, carriage return, the four
      information separators 0x1C-0x1F, and space. */
  predicate IsSpace(c: char) {
    (9 <= c as int <= 13) || (28 <= c as int <= 31) || c == ' '
  }

  function LowerChar(c: char): (d: char)
    ensures !IsUpper(d)
    ensures IsUpper(c) ==> d as int == c as int + 32
    ensures !IsUpper(c) ==> d == c
  {
    if IsUpper(c) then (c as int + 32) as char else c
  }

  /** `s.lower()` on ASCII: every capital becomes its small letter, nothing else changes. */
  function Lower(s: string): (r: string)
    ensures |r| == |s|
    ensures forall i :: 0 <= i < |r| ==> !IsUpper(r[i])
    ensures forall i :: 0 <= i < |s| && !IsUpper(s[i]) ==> r[i] == s[i]
    ensures forall i :: 0 <= i < |s| && IsUpper(s[i]) ==> r[i] as int == s[i] as int + 32
  {
    seq(|s|, i requires 0 <= i < |s| => LowerChar(s[i]))
  }

  /** Where `s.strip()` starts: the length of the leading run of whitespace. */
  function StripOffset(s: string): (n: nat)
    ensures n <= |s|
    ensures forall i :: 0 <= i < n ==> IsSpace(s[i])
    ensures n == |s| || !IsSpace(s[n])
  {
    if |s| > 0 && IsSpace(s[0]) then 1 + StripOffset(s[1..]) else 0
  }

  /** Where `s.strip()` ends: the length of `s` without its trailing run of whitespace. */
  function StripEnd(s: string): (n: nat)
    ensures n <= |s|
    ensures forall i :: n <= i < |s| ==> IsSpace(s[i])
    ensures n == 0 || !IsSpace(s[n - 1])
  {
    if |s| > 0 && IsSpace(s[|s| - 1]) then StripEnd(s[..|s| - 1]) else |s|
  }

  /** `s.strip()`: the part of `s` starting at `StripOffset(s)`, with only whitespace
      outside it and no whitespace at either of its ends. An all-whitespace text strips
      to the empty text. */
  function Strip(s: string): (r: string)
    ensures StripOffset(s) + |r| <= |s| && r == s[StripOffset(s)..StripOffset(s) + |r|]
    ensures forall i :: 0 <= i < StripOffset(s) ==> IsSpace(s[i])
    ensures forall i :: StripOffset(s) + |r| <= i < |s| ==> IsSpace(s[i])
    ensures r == [] || (!IsSpace(r[0]) && !IsSpace(r[|r| - 1]))
  {
    var lo, hi := StripOffset(s), StripEnd(s);
    if hi <= lo then [] else s[lo..hi]
  }

  /** A text that neither starts nor ends with whitespace is its own `strip()`. */
  lemma StripUnchanged(s: string)
    requires s == [] || (!IsSpace(s[0]) && !IsSpace(s[|s| - 1]))
    ensures Strip(s) == s
  {
    if |s| > 0 {
      assert StripOffset(s) == 0 && StripEnd(s) == |s|;
    }
  }

  /** `pat` occurs in `s` starting at index `i`. */
  predicate OccursAt(s: string, pat: string, i: int) {
    0 <= i && i + |pat| <= |s| && s[i..i + |pat|] == pat
  }

  /** Python's `s.replace(pat, rep)` for a non-empty `pat`: scanning left to right, every
      non-overlapping occurrence of `pat` is replaced by `rep`. */
  function ReplaceAll(s: string, pat: string, rep: string): string
    requires |pat| > 0
    decreases |s|
  {
    if |s| == 0 then []
    else if OccursAt(s, pat, 0) then rep + ReplaceAll(s[|pat|..], pat, rep)
    else [s[0]] + ReplaceAll(s[1..], pat, rep)
  }

  /** Replacing a single character by a single character is a one-for-one map. */
  lemma {:induction false} ReplaceCharAt(s: string, c: char, d: char)
    ensures |ReplaceAll(s, [c], [d])| == |s|
    ensures forall i :: 0 <= i < |s| ==>
              ReplaceAll(s, [c], [d])[i] == (if s[i] == c then d else s[i])
  {
    if |s| > 0 {
      ReplaceCharAt(s[1..], c, d);
      assert OccursAt(s, [c], 0) <==> s[0] == c;
      var r := ReplaceAll(s, [c], [d]);
      var r' := ReplaceAll(s[1..], [c], [d]);
      assert r == [if s[0] == c then d else s[0]] + r';
      forall i | 0 <= i < |s|
        ensures r[i] == (if s[i] == c then d else s[i])
      {
        if i > 0 { assert r[i] == r'[i - 1]; assert s[1..][i - 1] == s[i]; }
      }
    }
  }

  /** A text in which the first character of `pat` never appears contains no occurrence
      of `pat`, so `replace` returns it unchanged. */
  lemma {:induction false} ReplaceAbsent(s: string, pat: string, rep: string)
    requires |pat| > 0
    requires forall i :: 0 <= i < |s| ==> s[i] != pat[0]
    ensures ReplaceAll(s, pat, rep) == s
  {
    if |s| > 0 {
      assert |s| < |pat| || s[0..|pat|][0] != pat[0];
      ReplaceAbsent(s[1..], pat, rep);
      assert s == [s[0]] + s[1..];
    }
  }

  /** Text before which no occurrence of `pat` starts passes through `replace` untouched. */
  lemma {:induction false} ReplaceAfterPrefix(x: string, y: string, pat: string, rep: string)
    requires |pat| > 0
    requires forall i :: 0 <= i < |x| ==> !OccursAt(x + y, pat, i)
    ensures ReplaceAll(x + y, pat, rep) == x + ReplaceAll(y, pat, rep)
  {
    if |x| > 0 {
      var s := x + y;
      assert !OccursAt(s, pat, 0);
      assert s[1..] == x[1..] + y;
      forall i | 0 <= i < |x[1..]|
        ensures !OccursAt(x[1..] + y, pat, i)
      {
        assert !OccursAt(s, pat, i + 1);
        if i + |pat| <= |s[1..]| {
          assert s[1..][i..i + |pat|] == s[i + 1..i + 1 + |pat|];
        }
      }
      ReplaceAfterPrefix(x[1..], y, pat, rep);
      assert ReplaceAll(s, pat, rep) == [s[0]] + ReplaceAll(s[1..], pat, rep);
      assert x == [x[0]] + x[1..];
    } else {
      assert x + y == y;
    }
  }

  /** A text with no occurrence of `pat` is its own `replace`. */
  lemma ReplaceNone(s: string, pat: string, rep: string)
    requires |pat| > 0
    requires forall i :: 0 <= i < |s| ==> !OccursAt(s, pat, i)
    ensures ReplaceAll(s, pat, rep) == s
  {
    assert s + [] == s;
    ReplaceAfterPrefix(s, [], pat, rep);
  }

  /** `replace` introduces no capital letter that neither the text nor the replacement had. */
  lemma {:induction false} ReplaceKeepsLower(s: string, pat: string, rep: string)
    requires |pat| > 0
    requires forall i :: 0 <= i < |s| ==> !IsUpper(s[i])
    requires forall i :: 0 <= i < |rep| ==> !IsUpper(rep[i])
    ensures forall i :: 0 <= i < |ReplaceAll(s, pat, rep)| ==> !IsUpper(ReplaceAll(s, pat, rep)[i])
  {
    if |s| > 0 {
      if OccursAt(s, pat, 0) {
        ReplaceKeepsLower(s[|pat|..], pat, rep);
        var t := ReplaceAll(s[|pat|..], pat, rep);
        assert forall i :: 0 <= i < |rep + t| ==> (rep + t)[i] == (if i < |rep| then rep[i] else t[i - |rep|]);
      } else {
        ReplaceKeepsLower(s[1..], pat, rep);
        var t := ReplaceAll(s[1..], pat, rep);
        assert forall i :: 0 <= i < |[s[0]] + t| ==> ([s[0]] + t)[i] == (if i < 1 then s[0] else t[i - 1]);
      }
    }
  }
}
