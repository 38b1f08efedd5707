/**
 * Placeholder extraction (`_getUrlParams`): the global search for the
 * regular expression `{\s*[\w.]+\s*}` written out as a scanner. At each
 * position the scanner either recognises a token and resumes after it, or
 * moves on by one character, which is how a global JavaScript regular
 * expression search finds its leftmost non-overlapping matches.
 */
module Placeholders {
  import opened Wrappers

  /** `[\w.]`: ASCII letters, digits, the underscore and the dot. */
  predicate IsIdentChar(c: char) {
    ('A' <= c <= 'Z') || ('a' <= c <= 'z') || ('0' <= c <= '9') || c == '_' || c == '.'
  }

  /** `\s`: the WhiteSpace and LineTerminator characters of ECMAScript. */
  predicate IsSpace(c: char) {
    c == ' ' || c == '\t' || c == '\n' || c == '\r' || c == '\U{000B}' || c == '\U{000C}'
    || c == '\U{00A0}' || c == '\U{1680}' || ('\U{2000}' <= c <= '\U{200A}')
    || c == '\U{2028}' || c == '\U{2029}' || c == '\U{202F}' || c == '\U{205F}'
    || c == '\U{3000}' || c == '\U{FEFF}'
  }

  predicate IsIdent(id: string) {
    |id| > 0 && forall k :: 0 <= k < |id| ==> IsIdentChar(id[k])
  }

  predicate AllSpace(w: string) {
    forall k :: 0 <= k < |w| ==> IsSpace(w[k])
  }

  predicate NoBrace(s: string) {
    forall k :: 0 <= k < |s| ==> s[k] != '{'
  }

  /** One token as it may be written in a template: `{`, optional whitespace,
      the identifier, optional whitespace, `}`. */
  datatype Placeholder = Placeholder(lead: string, ident: string, trail: string)
  {
    predicate Valid() {
      AllSpace(lead) && IsIdent(ident) && AllSpace(trail)
    }

    function Text(): string {
      "{" + lead + ident + trail + "}"
    }
  }

  /** What the regular expression reports for a token at the start of a string:
      the identifier and the number of characters the token spans. */
  datatype Match = Match(ident: string, length: nat)

  /** The first index at or after `i` that does not hold whitespace. */
  function SkipSpace(s: string, i: nat): (j: nat)
    requires i <= |s|
    ensures i <= j <= |s|
    ensures forall k :: i <= k < j ==> IsSpace(s[k])
    ensures j < |s| ==> !IsSpace(s[j])
    decreases |s| - i
  {
    if i < |s| && IsSpace(s[i]) then SkipSpace(s, i + 1) else i
  }

  /** The first index at or after `i` that does not hold an identifier character. */
  function SkipIdent(s: string, i: nat): (j: nat)
    requires i <= |s|
    ensures i <= j <= |s|
    ensures forall k :: i <= k < j ==> IsIdentChar(s[k])
    ensures j < |s| ==> !IsIdentChar(s[j])
    decreases |s| - i
  {
    if i < |s| && IsIdentChar(s[i]) then SkipIdent(s, i + 1) else i
  }

  /** The match of `{\s*[\w.]+\s*}` that starts at the first character of `s`,
      if there is one. The character classes are disjoint from each other and
      from `}`, so the greedy scan below is the only way the pattern can match. */
  function MatchToken(s: string): (r: Option<Match>)
    ensures r.Some? ==> IsIdent(r.value.ident) && |r.value.ident| + 2 <= r.value.length <= |s|
  {
    if |s| == 0 || s[0] != '{' then None
    else
      var a := SkipSpace(s, 1);
      var b := SkipIdent(s, a);
      var c := SkipSpace(s, b);
      if a < b && c < |s| && s[c] == '}' then Some(Match(s[a..b], c + 1)) else None
  }

  /** The identifiers of all tokens found by the global search, left to right,
      duplicates kept. */
  function Extract(s: string): (ids: seq<string>)
    ensures forall k :: 0 <= k < |ids| ==> IsIdent(ids[k])
    ensures 3 * |ids| <= |s|
    decreases |s|
  {
    if |s| == 0 then []
    else match MatchToken(s)
      case Some(m) => [m.ident] + Extract(s[m.length..])
      case None => Extract(s[1..])
  }

  /** Writes literal text and tokens alternately: `lits[0] parts[0] lits[1] ...`. */
  function Interleave(lits: seq<string>, parts: seq<string>): (s: string)
    requires |lits| == |parts| + 1
    decreases |parts|
  {
    if |parts| == 0 then lits[0] else lits[0] + parts[0] + Interleave(lits[1..], parts[1..])
  }

  function Texts(ps: seq<Placeholder>): (ts: seq<string>)
    ensures |ts| == |ps| && forall k :: 0 <= k < |ps| ==> ts[k] == ps[k].Text()
  {
    seq(|ps|, k requires 0 <= k < |ps| => ps[k].Text())
  }

  function Idents(ps: seq<Placeholder>): (ids: seq<string>)
    ensures |ids| == |ps| && forall k :: 0 <= k < |ps| ==> ids[k] == ps[k].ident
  {
    seq(|ps|, k requires 0 <= k < |ps| => ps[k].ident)
  }

  /** The tokens `{id}` written without whitespace. */
  function Plain(ids: seq<string>): (ps: seq<Placeholder>)
    ensures |ps| == |ids| && forall k :: 0 <= k < |ids| ==> ps[k] == Placeholder("", ids[k], "")
  {
    seq(|ids|, k requires 0 <= k < |ids| => Placeholder("", ids[k], ""))
  }

  lemma SkipSpaceExact(s: string, i: nat, j: nat)
    requires i <= j <= |s|
    requires forall k :: i <= k < j ==> IsSpace(s[k])
    requires j < |s| ==> !IsSpace(s[j])
    ensures SkipSpace(s, i) == j
  {
  }

  lemma SkipIdentExact(s: string, i: nat, j: nat)
    requires i <= j <= |s|
    requires forall k :: i <= k < j ==> IsIdentChar(s[k])
    requires j < |s| ==> !IsIdentChar(s[j])
    ensures SkipIdent(s, i) == j
  {
  }

  /** A token written in any of its permitted forms is recognised, whatever follows it. */
  lemma MatchTokenComplete(p: Placeholder, rest: string)
    requires p.Valid()
    ensures MatchToken(p.Text() + rest) == Some(Match(p.ident, |p.Text()|))
  {
    var s := p.Text() + rest;
    var a := 1 + |p.lead|;
    var b := a + |p.ident|;
    var c := b + |p.trail|;
    assert forall k :: 1 <= k < a ==> s[k] == p.lead[k - 1];
    assert forall k :: a <= k < b ==> s[k] == p.ident[k - a];
    assert forall k :: b <= k < c ==> s[k] == p.trail[k - b];
    assert s[c] == '}';
    SkipSpaceExact(s, 1, a);
    SkipIdentExact(s, a, b);
    SkipSpaceExact(s, b, c);
    assert s[a..b] == p.ident;
  }

  /** Everything the scanner recognises is a token written in a permitted form. */
  lemma MatchTokenSound(s: string)
    requires MatchToken(s).Some?
    ensures exists p: Placeholder :: p.Valid() && p.ident == MatchToken(s).value.ident
                                  && s[..MatchToken(s).value.length] == p.Text()
  {
    var a := SkipSpace(s, 1);
    var b := SkipIdent(s, a);
    var c := SkipSpace(s, b);
    var p := Placeholder(s[1..a], s[a..b], s[b..c]);
    assert p.Valid();
    assert s[..c + 1] == p.Text();
  }

  /** A character other than `{` starts no token, and the search moves past it. */
  lemma ExtractSkipsChar(s: string)
    requires |s| > 0 && s[0] != '{'
    ensures Extract(s) == Extract(s[1..])
  {
    assert MatchToken(s).None?;
  }

  /** Literal text without `{` contributes no token. */
  lemma {:induction false} ExtractSkipsText(text: string, rest: string)
    requires NoBrace(text)
    ensures Extract(text + rest) == Extract(rest)
    decreases |text|
  {
    if |text| > 0 {
      var s := text + rest;
      assert s[0] == text[0];
      ExtractSkipsChar(s);
      assert s[1..] == text[1..] + rest;
      ExtractSkipsText(text[1..], rest);
    } else {
      assert text + rest == rest;
    }
  }

  /** A recognised token contributes its identifier and the search resumes after it. */
  lemma ExtractToken(p: Placeholder, rest: string)
    requires p.Valid()
    ensures Extract(p.Text() + rest) == [p.ident] + Extract(rest)
  {
    MatchTokenComplete(p, rest);
    assert (p.Text() + rest)[|p.Text()|..] == rest;
  }

  /** The round trip: extraction from a template written as literal text and
      tokens returns exactly the tokens' identifiers, in order. */
  lemma {:induction false} ExtractTemplate(lits: seq<string>, ps: seq<Placeholder>)
    requires |lits| == |ps| + 1
    requires forall k :: 0 <= k < |lits| ==> NoBrace(lits[k])
    requires forall k :: 0 <= k < |ps| ==> ps[k].Valid()
    ensures Extract(Interleave(lits, Texts(ps))) == Idents(ps)
    decreases |ps|
  {
    if |ps| == 0 {
      ExtractSkipsText(lits[0], "");
      assert lits[0] + "" == lits[0];
    } else {
      var tail := Interleave(lits[1..], Texts(ps)[1..]);
      assert Texts(ps)[1..] == Texts(ps[1..]);
      ExtractTemplate(lits[1..], ps[1..]);
      assert lits[0] + ps[0].Text() + tail == lits[0] + (ps[0].Text() + tail);
      ExtractSkipsText(lits[0], ps[0].Text() + tail);
      ExtractToken(ps[0], tail);
      assert Idents(ps) == [ps[0].ident] + Idents(ps[1..]);
    }
  }

  /** Extraction finds nothing exactly when no position starts a token. */
  lemma {:induction false} ExtractEmptyIff(s: string)
    ensures Extract(s) == [] <==> forall i :: 0 <= i <= |s| ==> MatchToken(s[i..]).None?
    decreases |s|
  {
    if |s| > 0 {
      assert s[0..] == s;
      if MatchToken(s).None? {
        ExtractEmptyIff(s[1..]);
        forall i | 1 <= i <= |s| ensures s[i..] == s[1..][i - 1..] { }
        if forall i :: 0 <= i <= |s[1..]| ==> MatchToken(s[1..][i..]).None? {
          forall i | 0 <= i <= |s| ensures MatchToken(s[i..]).None? {
            if i > 0 {
              assert MatchToken(s[1..][i - 1..]).None?;
            }
          }
        } else {
          var i :| 0 <= i <= |s[1..]| && MatchToken(s[1..][i..]).Some?;
          assert MatchToken(s[i + 1..]).Some?;
        }
      }
    } else {
      assert MatchToken(s[0..]).None?;
    }
  }

  /** Text without `{` has no tokens. */
  lemma NoBraceNoTokens(s: string)
    requires NoBrace(s)
    ensures Extract(s) == []
  {
    ExtractSkipsText(s, "");
    assert s + "" == s;
  }
}
