/**
 * The string operations of JavaScript that the modelled code relies on:
 * `toLowerCase`/`toUpperCase` (on ASCII letters), `includes`, `trim`,
 * `slice(0, n)`, `split(' ')` and `join`, and the default order of `sort()`.
 */
module Text {
  import Seqs

  function LowerChar(c: char): char
  {
    if 'A' <= c <= 'Z' then (c as int + 32) as char else c
  }

  function UpperChar(c: char): char
  {
    if 'a' <= c <= 'z' then (c as int - 32) as char else c
  }

  /** `String.prototype.toLowerCase`, restricted to the ASCII letters. */
  function ToLower(s: string): string
  {
    seq(|s|, i requires 0 <= i < |s| => LowerChar(s[i]))
  }

  /** `String.prototype.toUpperCase`, restricted to the ASCII letters. */
  function ToUpper(s: string): string
  {
    seq(|s|, i requires 0 <= i < |s| => UpperChar(s[i]))
  }

  /** `sub` occurs in `s` starting at position `i`. */
  predicate OccursAt(s: string, sub: string, i: int)
  {
    0 <= i <= |s| - |sub| && s[i..i + |sub|] == sub
  }

  /** `s.includes(sub)`: `sub` occurs in `s` at some position. */
  predicate Contains(s: string, sub: string)
  {
    exists i :: 0 <= i <= |s| - |sub| && OccursAt(s, sub, i)
  }

  /** Every character of an occurring substring is a character of the string. */
  lemma ContainsChars(s: string, sub: string)
    requires Contains(s, sub)
    ensures forall k :: 0 <= k < |sub| ==> sub[k] in s
  {
    var i :| 0 <= i <= |s| - |sub| && OccursAt(s, sub, i);
    forall k | 0 <= k < |sub| ensures sub[k] in s {
      assert s[i + k] == s[i..i + |sub|][k];
    }
  }

  /** `s.slice(0, n)`: the first `n` characters, or all of them when there are fewer. */
  function Prefix(s: string, n: nat): (r: string)
  {
    if |s| <= n then s else s[..n]
  }

  /** The characters `String.prototype.trim` removes: ECMAScript WhiteSpace and LineTerminator. */
  predicate IsJsSpace(c: char)
  {
    || c == ' ' || c == '\t' || c == '\n' || c == '\r'
    || c == '\U{000B}' || c == '\U{000C}' || c == '\U{00A0}' || c == '\U{FEFF}'
    || c == '\U{1680}' || ('\U{2000}' <= c <= '\U{200A}') || c == '\U{2028}'
    || c == '\U{2029}' || c == '\U{202F}' || c == '\U{205F}' || c == '\U{3000}'
  }

  /** `s` without its leading white space. */
  function DropLeading(s: string): string
  {
    if s != [] && IsJsSpace(s[0]) then DropLeading(s[1..]) else s
  }

  /** `s` without its trailing white space. */
  function DropTrailing(s: string): string
  {
    if s != [] && IsJsSpace(s[|s| - 1]) then DropTrailing(s[..|s| - 1]) else s
  }

  /** Dropping leading white space keeps a suffix that starts with a non-space, and skips only white space. */
  lemma {:induction false} DropLeadingSuffix(s: string)
    ensures var r := DropLeading(s);
            && |r| <= |s| && r == s[|s| - |r|..]
            && (r == [] || !IsJsSpace(r[0]))
            && (forall k :: 0 <= k < |s| - |r| ==> IsJsSpace(s[k]))
  {
    if s != [] && IsJsSpace(s[0]) {
      var tail := s[1..];
      DropLeadingSuffix(tail);
      var r := DropLeading(tail);
      assert DropLeading(s) == r;
      assert tail[|tail| - |r|..] == s[|s| - |r|..];
      forall k | 1 <= k < |s| - |r| ensures IsJsSpace(s[k]) {
        assert s[k] == tail[k - 1];
      }
    }
  }

  /** Dropping trailing white space keeps a prefix that ends with a non-space, and cuts only white space. */
  lemma {:induction false} DropTrailingPrefix(s: string)
    ensures var r := DropTrailing(s);
            && |r| <= |s| && r == s[..|r|]
            && (r == [] || !IsJsSpace(r[|r| - 1]))
            && (forall k :: |r| <= k < |s| ==> IsJsSpace(s[k]))
  {
    if s != [] && IsJsSpace(s[|s| - 1]) {
      var init := s[..|s| - 1];
      DropTrailingPrefix(init);
      var r := DropTrailing(init);
      assert DropTrailing(s) == r;
      assert init[..|r|] == s[..|r|];
      forall k | |r| <= k < |s| - 1 ensures IsJsSpace(s[k]) {
        assert s[k] == init[k];
      }
    }
  }

  /** A prefix of a suffix is a slice, and what the prefix leaves out lies at the end. */
  lemma PrefixOfSuffix(s: string, t: string, r: string)
    requires |t| <= |s| && t == s[|s| - |t|..]
    requires |r| <= |t| && r == t[..|r|]
    requires forall k :: |r| <= k < |t| ==> IsJsSpace(t[k])
    ensures |s| - |t| + |r| <= |s|
    ensures r == s[|s| - |t|..|s| - |t| + |r|]
    ensures forall k :: |s| - |t| + |r| <= k < |s| ==> IsJsSpace(s[k])
  {
    var lead := |s| - |t|;
    forall k | lead + |r| <= k < |s| ensures IsJsSpace(s[k]) {
      assert s[k] == t[k - lead];
    }
  }

  /** What trimming keeps: the slice between the leading and the trailing white space. */
  lemma TrimSlice(s: string)
    ensures var t := DropLeading(s);
            var r := DropTrailing(t);
            var lead := |s| - |t|;
            && |r| <= |t| <= |s|
            && r == s[lead..lead + |r|]
            && (r == [] || (!IsJsSpace(r[0]) && !IsJsSpace(r[|r| - 1])))
            && (forall k :: lead + |r| <= k < |s| ==> IsJsSpace(s[k]))
  {
    var t := DropLeading(s);
    var r := DropTrailing(t);
    DropLeadingSuffix(s);
    DropTrailingPrefix(t);
    PrefixOfSuffix(s, t, r);
    assert r != [] ==> r[0] == t[0];
  }

  /**
   * `String.prototype.trim`: what is left of `s` after its leading white
   * space and its trailing white space; `TrimSlice` places it inside `s`.
   */
  function Trim(s: string): (r: string)
    ensures r == [] || (!IsJsSpace(r[0]) && !IsJsSpace(r[|r| - 1]))
  {
    TrimSlice(s);
    DropTrailing(DropLeading(s))
  }

  /** Trimming leaves nothing exactly when every character is white space. */
  lemma TrimBlank(s: string)
    ensures Trim(s) == [] <==> forall k :: 0 <= k < |s| ==> IsJsSpace(s[k])
  {
    var t := DropLeading(s);
    var lead := |s| - |t|;
    DropLeadingSuffix(s);
    DropTrailingPrefix(t);
    assert t == s[lead..];
    if t != [] {
      assert t[0] == s[lead];
      assert DropTrailing(t) != [];
    }
  }

  /** A string with no white space at either end is left as it is. */
  lemma TrimKeeps(s: string)
    requires s == [] || (!IsJsSpace(s[0]) && !IsJsSpace(s[|s| - 1]))
    ensures Trim(s) == s
  {
  }

  lemma TrimIdempotent(s: string)
    ensures Trim(Trim(s)) == Trim(s)
  {
    TrimKeeps(Trim(s));
  }

  /** The order of `Array.prototype.sort()` without a comparator: lexicographic by character. */
  predicate StrLe(a: string, b: string)
  {
    a == [] || (b != [] && (a[0] < b[0] || (a[0] == b[0] && StrLe(a[1..], b[1..]))))
  }

  lemma {:induction false} StrLeTotal(a: string, b: string)
    ensures StrLe(a, b) || StrLe(b, a)
  {
    if a != [] && b != [] && a[0] == b[0] {
      StrLeTotal(a[1..], b[1..]);
    }
  }

  lemma {:induction false} StrLeTrans(a: string, b: string, c: string)
    requires StrLe(a, b) && StrLe(b, c)
    ensures StrLe(a, c)
  {
    if a != [] && b != [] && c != [] && a[0] == b[0] == c[0] {
      StrLeTrans(a[1..], b[1..], c[1..]);
    }
  }

  lemma {:induction false} StrLeAntisymmetric(a: string, b: string)
    requires StrLe(a, b) && StrLe(b, a)
    ensures a == b
  {
    if a != [] && b != [] {
      StrLeAntisymmetric(a[1..], b[1..]);
      assert a == [a[0]] + a[1..] && b == [b[0]] + b[1..];
    }
  }

  lemma StrLeIsTotalPreorder()
    ensures Seqs.TotalPreorder(StrLe)
  {
    forall a, b ensures StrLe(a, b) || StrLe(b, a) {
      StrLeTotal(a, b);
    }
    forall a, b, c | StrLe(a, b) && StrLe(b, c) ensures StrLe(a, c) {
      StrLeTrans(a, b, c);
    }
  }

  /** `s.split(' ')`: the pieces between single spaces (empty pieces included). */
  function Split(s: string): (r: seq<string>)
    ensures |r| >= 1
  {
    if s == [] then [""]
    else if s[0] == ' ' then [""] + Split(s[1..])
    else
      var rest := Split(s[1..]);
      [[s[0]] + rest[0]] + rest[1..]
  }

  /** No piece holds a space. */
  lemma {:induction false} SplitPieces(s: string)
    ensures forall k :: 0 <= k < |Split(s)| ==> ' ' !in Split(s)[k]
  {
    if s != [] {
      SplitPieces(s[1..]);
      var rest := Split(s[1..]);
      if s[0] == ' ' {
        assert Split(s) == [""] + rest;
      } else {
        assert ' ' !in [s[0]] + rest[0];
        assert Split(s) == [[s[0]] + rest[0]] + rest[1..];
      }
    }
  }

  /** `ps.join(' ')`. */
  function Join(ps: seq<string>): string
  {
    if ps == [] then ""
    else if |ps| == 1 then ps[0]
    else ps[0] + " " + Join(ps[1..])
  }

  lemma JoinConsChar(c: char, p: string, tail: seq<string>)
    ensures Join([[c] + p] + tail) == [c] + Join([p] + tail)
  {
    assert ([[c] + p] + tail)[1..] == tail;
    assert ([p] + tail)[1..] == tail;
  }

  /** Splitting on spaces and joining with spaces gives the string back. */
  lemma {:induction false} JoinSplit(s: string)
    ensures Join(Split(s)) == s
  {
    if s != [] {
      JoinSplit(s[1..]);
      var rest := Split(s[1..]);
      if s[0] == ' ' {
        assert ([""] + rest)[1..] == rest;
      } else {
        JoinConsChar(s[0], rest[0], rest[1..]);
        assert [rest[0]] + rest[1..] == rest;
      }
      assert s == [s[0]] + s[1..];
    }
  }

  /** The first characters of the non-empty pieces: `ps.map(s => s[0]).join('')`. */
  function Heads(ps: seq<string>): string
  {
    if ps == [] then [] else (if ps[0] == [] then [] else [ps[0][0]]) + Heads(ps[1..])
  }

  /** The number of spaces at the start of `s`. */
  function Blanks(s: string): (n: nat)
    ensures n <= |s|
    ensures forall k :: 0 <= k < n ==> s[k] == ' '
    ensures n < |s| ==> s[n] != ' '
  {
    if s != [] && s[0] == ' ' then 1 + Blanks(s[1..]) else 0
  }

  /** The first word initial is the first character that is not a space. */
  lemma {:induction false} HeadsOfSplit(s: string)
    ensures Heads(Split(s)) == [] <==> Blanks(s) == |s|
    ensures Blanks(s) < |s| ==> Heads(Split(s))[0] == s[Blanks(s)]
  {
    if s != [] {
      var rest := Split(s[1..]);
      if s[0] == ' ' {
        HeadsOfSplit(s[1..]);
        assert Split(s) == [""] + rest;
        assert ([""] + rest)[1..] == rest;
      } else {
        assert Split(s) == [[s[0]] + rest[0]] + rest[1..];
        assert ([[s[0]] + rest[0]] + rest[1..])[1..] == rest[1..];
      }
    }
  }

  /** The number of characters of the word at the start of `s` (up to the first space). */
  function WordLength(s: string): (n: nat)
    ensures n <= |s|
    ensures forall k :: 0 <= k < n ==> s[k] != ' '
    ensures n < |s| ==> s[n] == ' '
  {
    if s != [] && s[0] != ' ' then 1 + WordLength(s[1..]) else 0
  }

  /** Leading spaces only add empty pieces, which contribute no initial. */
  lemma {:induction false} HeadsSkipBlanks(s: string)
    ensures Heads(Split(s)) == Heads(Split(s[Blanks(s)..]))
  {
    if s != [] && s[0] == ' ' {
      HeadsSkipBlanks(s[1..]);
      assert Split(s) == [""] + Split(s[1..]);
      assert ([""] + Split(s[1..]))[1..] == Split(s[1..]);
      assert s[1..][Blanks(s[1..])..] == s[Blanks(s)..];
    }
  }

  /** The pieces after the first give the initials of what follows the first word. */
  lemma {:induction false} HeadsAfterWord(s: string)
    ensures Heads(Split(s)[1..]) == Heads(Split(s[WordLength(s)..]))
  {
    if s != [] {
      var rest := Split(s[1..]);
      if s[0] == ' ' {
        assert Split(s) == [""] + rest;
        assert Split(s)[1..] == rest;
        assert Heads(Split(s)) == Heads(rest);
      } else {
        HeadsAfterWord(s[1..]);
        assert Split(s) == [[s[0]] + rest[0]] + rest[1..];
        assert Split(s)[1..] == rest[1..];
        assert s[1..][WordLength(s[1..])..] == s[WordLength(s)..];
      }
    }
  }

  /** The first two word initials of `s`: those of its first word and of the word after it. */
  /** The leading spaces are the whole string exactly when every character is a space. */
  lemma BlanksAll(s: string)
    ensures Blanks(s) == |s| <==> forall k :: 0 <= k < |s| ==> s[k] == ' '
  {
    if Blanks(s) < |s| {
      assert s[Blanks(s)] != ' ';
    }
  }

  lemma {:induction false} FirstTwoHeads(s: string)
    ensures var h := Heads(Split(s));
            && (h == [] <==> forall k :: 0 <= k < |s| ==> s[k] == ' ')
            && (Blanks(s) < |s| ==>
                  var after := s[Blanks(s) + WordLength(s[Blanks(s)..])..];
                  && h != [] && h[0] == s[Blanks(s)]
                  && (|h| >= 2 <==> Blanks(after) < |after|)
                  && (|h| >= 2 ==> h[1] == after[Blanks(after)]))
  {
    HeadsOfSplit(s);
    BlanksAll(s);
    if Blanks(s) < |s| {
      var b := Blanks(s);
      var after := s[b + WordLength(s[b..])..];
      NextInitials(s);
      HeadsOfSplit(after);
      assert s[b] != ' ';
    }
  }

  /** A string that starts with a word splits into a first piece that starts with the same character. */
  lemma {:induction false} SplitWordFirst(t: string)
    requires t != [] && t[0] != ' '
    ensures Split(t)[0] != [] && Split(t)[0][0] == t[0]
  {
    var rest := Split(t[1..]);
    assert Split(t)[0] == [t[0]] + rest[0];
  }

  /**
   * The initials of `s`: the first character of its first word, followed by
   * the initials of what comes after that word.
   */
  lemma {:induction false} NextInitials(s: string)
    requires Blanks(s) < |s|
    ensures var b := Blanks(s);
            var e := b + WordLength(s[b..]);
            && e <= |s|
            && Heads(Split(s)) == [s[b]] + Heads(Split(s[e..]))
  {
    var b := Blanks(s);
    var t := s[b..];
    HeadsSkipBlanks(s);
    HeadsOfWord(t);
    assert t[WordLength(t)..] == s[b + WordLength(t)..];
  }

  /** A string that starts with a word: its initial, then the initials after the word. */
  lemma {:induction false} HeadsOfWord(t: string)
    requires t != [] && t[0] != ' '
    ensures Heads(Split(t)) == [t[0]] + Heads(Split(t[WordLength(t)..]))
  {
    SplitWordFirst(t);
    var ps := Split(t);
    assert Heads(ps) == [t[0]] + Heads(ps[1..]);
    HeadsAfterWord(t);
  }
}
