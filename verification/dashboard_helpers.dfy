/** The small pure helpers of scripts/dashboard.js: `clamp`, `escapeHtml`, `qs` and the avatar initials. */
module DashboardHelpers {
  import opened Wrappers
  import opened Seqs
  import opened Text

  /** `clamp(n, min, max) = Math.max(min, Math.min(max, n))`. */
  function Clamp(n: int, min: int, max: int): (r: int)
    ensures r >= min
    ensures min <= max ==> r <= max
    ensures min <= n <= max ==> r == n
    ensures n < min ==> r == min
    ensures min <= max < n ==> r == max
  {
    var low := if max < n then max else n;
    if min > low then min else low
  }

  /** Clamping twice with the same bounds changes nothing more. */
  lemma ClampIdempotent(n: int, min: int, max: int)
    requires min <= max
    ensures Clamp(Clamp(n, min, max), min, max) == Clamp(n, min, max)
  {
  }

  // ---------------------------------------------------------------- escapeHtml

  predicate IsHtmlSpecial(c: char)
  {
    c == '&' || c == '<' || c == '>' || c == '"' || c == '\''
  }

  /** The replacement of one character: its entity for the five specials, itself otherwise. */
  function Entity(c: char): (r: string)
    ensures IsHtmlSpecial(c) ==> |r| >= 4 && r[0] == '&'
    ensures !IsHtmlSpecial(c) ==> r == [c]
  {
    match c
    case '&' => "&amp;"
    case '<' => "&lt;"
    case '>' => "&gt;"
    case '"' => "&quot;"
    case '\'' => "&#39;"
    case _ => [c]
  }

  /** The global replace of `/[&<>"']/g` over a string. */
  function EscapeText(s: string): (r: string)
    ensures |r| >= |s|
    ensures forall i :: 0 <= i < |r| ==> r[i] != '<' && r[i] != '>' && r[i] != '"' && r[i] != '\''
    ensures (forall i :: 0 <= i < |s| ==> !IsHtmlSpecial(s[i])) ==> r == s
  {
    if s == [] then [] else Entity(s[0]) + EscapeText(s[1..])
  }

  /** `escapeHtml(s)`: `String(s || '')`, escaped; `null`/`undefined` give the empty string. */
  function EscapeHtml(s: Option<string>): (r: string)
    ensures s.None? ==> r == ""
    ensures s.Some? ==> r == EscapeText(s.value)
  {
    EscapeText(s.GetOr(""))
  }

  /** Escaping is applied character by character: it distributes over concatenation. */
  lemma {:induction false} EscapeAppend(a: string, b: string)
    ensures EscapeText(a + b) == EscapeText(a) + EscapeText(b)
  {
    if a != [] {
      assert (a + b)[0] == a[0] && (a + b)[1..] == a[1..] + b;
      EscapeAppend(a[1..], b);
    } else {
      assert a + b == b;
    }
  }

  /** The inverse: an HTML decoder for exactly these five entities. */
  function Unescape(r: string): string
  {
    if r == [] then []
    else if |r| >= 5 && r[..5] == "&amp;" then "&" + Unescape(r[5..])
    else if |r| >= 4 && r[..4] == "&lt;" then "<" + Unescape(r[4..])
    else if |r| >= 4 && r[..4] == "&gt;" then ">" + Unescape(r[4..])
    else if |r| >= 6 && r[..6] == "&quot;" then "\"" + Unescape(r[6..])
    else if |r| >= 5 && r[..5] == "&#39;" then "'" + Unescape(r[5..])
    else [r[0]] + Unescape(r[1..])
  }

  /** Decoding the replacement of one character yields that character, whatever follows. */
  lemma UnescapeEntity(c: char, rest: string)
    ensures Unescape(Entity(c) + rest) == [c] + Unescape(rest)
  {
    var r := Entity(c) + rest;
    assert r[|Entity(c)|..] == rest;
    if IsHtmlSpecial(c) {
      assert r[..|Entity(c)|] == Entity(c);
      if c != '&' {
        assert r[1] == Entity(c)[1];
        assert |r| >= 5 ==> r[..5][1] == r[1];
        if c != '<' {
          assert |r| >= 4 ==> r[..4][1] == r[1];
          if c != '>' {
            assert |r| >= 4 ==> r[..4][1] == r[1];
            if c != '"' {
              assert |r| >= 6 ==> r[..6][1] == r[1];
            }
          }
        }
      }
    } else {
      assert r[0] == c && r[1..] == rest;
      assert |r| >= 4 ==> r[..4][0] == c;
      assert |r| >= 5 ==> r[..5][0] == c;
      assert |r| >= 6 ==> r[..6][0] == c;
    }
  }

  /** Escaping loses nothing: decoding the output gives back the input. */
  lemma {:induction false} UnescapeEscape(s: string)
    ensures Unescape(EscapeText(s)) == s
  {
    if s != [] {
      UnescapeEscape(s[1..]);
      UnescapeEntity(s[0], EscapeText(s[1..]));
      assert s == [s[0]] + s[1..];
    }
  }

  // ---------------------------------------------------------------- qs

  /** A value of the parameter object: `undefined`, a string or a number. */
  datatype Param = Undefined | Str(s: string) | Num(n: int)

  /** The entry filter `v !== undefined && v !== ''`; the number 0 is kept. */
  predicate Present(e: (string, Param))
  {
    e.1 != Undefined && e.1 != Str("")
  }

  function PresentEntry(): ((string, Param)) -> bool
  {
    e => Present(e)
  }

  /** The entries `qs` hands to `URLSearchParams`, in their original order. */
  function QsEntries(entries: seq<(string, Param)>): (r: seq<(string, Param)>)
    ensures IsSubseq(r, entries)
    ensures forall e :: e in r ==> Present(e)
    ensures forall e :: multiset(r)[e] == if Present(e) then multiset(entries)[e] else 0
  {
    SelectIsSubseq(entries, PresentEntry());
    SelectCount(entries, PresentEntry());
    Select(entries, PresentEntry())
  }

  /** Text-valued entries `name: value`. */
  function TextEntries(fs: seq<(string, string)>): seq<(string, Param)>
  {
    if fs == [] then [] else [(fs[0].0, Str(fs[0].1))] + TextEntries(fs[1..])
  }

  /** The text entries whose value is not empty, in order. */
  function NonEmptyEntries(fs: seq<(string, string)>): seq<(string, Param)>
  {
    if fs == [] then []
    else (if fs[0].1 == "" then [] else [(fs[0].0, Str(fs[0].1))]) + NonEmptyEntries(fs[1..])
  }

  lemma {:induction false} QsTextEntries(fs: seq<(string, string)>)
    ensures Select(TextEntries(fs), PresentEntry()) == NonEmptyEntries(fs)
  {
    if fs != [] {
      QsTextEntries(fs[1..]);
      var e := (fs[0].0, Str(fs[0].1));
      assert TextEntries(fs)[0] == e && TextEntries(fs)[1..] == TextEntries(fs[1..]);
    }
  }

  /** The parameter object of `loadTransactions` and `refreshCharts`: page, size, then the text filters. */
  function ListParams(page: int, pageSize: int, filters: seq<(string, string)>): seq<(string, Param)>
  {
    [("page", Num(page)), ("page_size", Num(pageSize))] + TextEntries(filters)
  }

  /** Page and size are always sent (even 0); each text filter only when it is not empty. */
  lemma ListParamsQuery(page: int, pageSize: int, filters: seq<(string, string)>)
    ensures QsEntries(ListParams(page, pageSize, filters))
            == [("page", Num(page)), ("page_size", Num(pageSize))] + NonEmptyEntries(filters)
  {
    var p := PresentEntry();
    var head := [("page", Num(page)), ("page_size", Num(pageSize))];
    QsTextEntries(filters);
    SelectAppend(head, TextEntries(filters), p);
    assert Select(head, p) == head by {
      assert head[1..][1..] == [];
    }
  }

  // ---------------------------------------------------------------- initials

  /** `a || b` over strings, where a missing value and `''` are both falsy. */
  function OrElse(a: Option<string>, b: string): string
  {
    if a.Some? && a.value != "" then a.value else b
  }

  /** The text the initials come from: `name || email || 'U'`. */
  function InitialsSource(name: Option<string>, email: Option<string>): (r: string)
    ensures r != ""
  {
    OrElse(name, OrElse(email, "U"))
  }

  /**
   * `.split(' ').map(s => s[0]).join('').slice(0, 2).toUpperCase()`: the
   * first letters of the first two words. Empty pieces between repeated
   * spaces contribute nothing.
   */
  function UpperInitials(s: string): (r: string)
    ensures |r| <= 2
    ensures r == [] <==> forall k :: 0 <= k < |s| ==> s[k] == ' '
    ensures r != [] ==> Blanks(s) < |s| && r[0] == UpperChar(s[Blanks(s)])
    ensures Blanks(s) < |s| ==>
              var after := s[Blanks(s) + WordLength(s[Blanks(s)..])..];
              && (|r| == 2 <==> Blanks(after) < |after|)
              && (|r| == 2 ==> r[1] == UpperChar(after[Blanks(after)]))
  {
    var h := Heads(Split(s));
    FirstTwoHeads(s);
    var first := Prefix(h, 2);
    assert |first| == if |h| < 2 then |h| else 2;
    assert forall k :: 0 <= k < |first| ==> first[k] == h[k];
    ToUpper(first)
  }

  /** The avatar text: the initials of the name, else of the email, else of "U". */
  function Initials(name: Option<string>, email: Option<string>): string
  {
    UpperInitials(InitialsSource(name, email))
  }

  /** With neither name nor email the avatar shows "U". */
  lemma AnonymousInitial()
    ensures Initials(None, None) == "U"
  {
    assert Split("") == [""];
    assert "U"[1..] == "";
    assert Split("U") == [['U'] + ""] + [""][1..];
    assert ['U'] + "" == "U" && [""][1..] == [];
    assert Heads(["U"]) == "U";
  }
}
