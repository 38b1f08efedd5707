/**
 * Substitution (`_replaceURLParams`): for each extracted identifier, in order,
 * the working URL is rewritten with JavaScript's `String.prototype.replace`
 * called with the search text `{id}`, which replaces the first remaining
 * occurrence only. Parameter values are strings (what the source's values
 * turn into when coerced); a missing one is the text "undefined".
 */
module Substitution {
  import opened Wrappers
  import opened Placeholders

  predicate OccursAt(s: string, needle: string, j: nat) {
    j + |needle| <= |s| && s[j..j + |needle|] == needle
  }

  predicate NoDollar(s: string) {
    forall k :: 0 <= k < |s| ==> s[k] != '$'
  }

  /** `s.indexOf(needle, from)`: the leftmost occurrence at or after `from`. */
  function IndexOf(s: string, needle: string, from: nat): (r: Option<nat>)
    requires from <= |s|
    ensures r.Some? ==> from <= r.value && OccursAt(s, needle, r.value)
    ensures r.Some? ==> forall j :: from <= j < r.value ==> !OccursAt(s, needle, j)
    ensures r.None? ==> forall j :: from <= j ==> !OccursAt(s, needle, j)
    decreases |s| - from
  {
    if from + |needle| > |s| then None
    else if s[from..from + |needle|] == needle then Some(from)
    else if from == |s| then None
    else IndexOf(s, needle, from + 1)
  }

  /** The replacement text that `String.prototype.replace` inserts for a string
      pattern (the GetSubstitution operation of ECMA-262 with no capture groups):
      `$$` is a dollar sign, `$&` the matched text, `` $` `` the text before the
      match, `$'` the text after it; every other character is copied. */
  function ExpandReplacement(rep: string, before: string, matched: string, after: string): (r: string)
    ensures NoDollar(rep) ==> r == rep
    decreases |rep|
  {
    if |rep| == 0 then ""
    else if rep[0] == '$' && |rep| >= 2 && rep[1] == '$' then "$" + ExpandReplacement(rep[2..], before, matched, after)
    else if rep[0] == '$' && |rep| >= 2 && rep[1] == '&' then matched + ExpandReplacement(rep[2..], before, matched, after)
    else if rep[0] == '$' && |rep| >= 2 && rep[1] == '`' then before + ExpandReplacement(rep[2..], before, matched, after)
    else if rep[0] == '$' && |rep| >= 2 && rep[1] == '\'' then after + ExpandReplacement(rep[2..], before, matched, after)
    else [rep[0]] + ExpandReplacement(rep[1..], before, matched, after)
  }

  /** `s.replace(needle, rep)` with a string pattern: only the first occurrence. */
  function ReplaceFirst(s: string, needle: string, rep: string): (r: string)
    ensures (forall j :: !OccursAt(s, needle, j)) ==> r == s
    ensures IndexOf(s, needle, 0).Some? && NoDollar(rep) ==>
      r == s[..IndexOf(s, needle, 0).value] + rep + s[IndexOf(s, needle, 0).value + |needle|..]
  {
    match IndexOf(s, needle, 0)
    case None => s
    case Some(p) =>
      s[..p] + ExpandReplacement(rep, s[..p], needle, s[p + |needle|..]) + s[p + |needle|..]
  }

  /** The search text `{id}`. */
  function Braced(id: string): string {
    Placeholder("", id, "").Text()
  }

  /** `urlParams[id]` as `replace` sees it: the value, or "undefined" when absent. */
  function ParamText(params: map<string, string>, id: string): string {
    if id in params then params[id] else "undefined"
  }

  function ParamTexts(params: map<string, string>, ids: seq<string>): (vs: seq<string>)
    ensures |vs| == |ids| && forall k :: 0 <= k < |ids| ==> vs[k] == ParamText(params, ids[k])
  {
    seq(|ids|, k requires 0 <= k < |ids| => ParamText(params, ids[k]))
  }

  /** The `forEach` over the identifiers: one first-occurrence replacement each, in order. */
  function ReplaceInOrder(s: string, ids: seq<string>, params: map<string, string>): string
    decreases |ids|
  {
    if |ids| == 0 then s
    else ReplaceInOrder(ReplaceFirst(s, Braced(ids[0]), ParamText(params, ids[0])), ids[1..], params)
  }

  /** What `_replaceURLParams(url, urlParams)` returns. */
  function Substituted(url: string, params: map<string, string>): string {
    var ids := Extract(url);
    if |ids| != 0 && |params| != 0 then ReplaceInOrder(url, ids, params) else url
  }

  /** `_replaceURLParams`: the loop that rewrites the working URL. */
  method Substitute(url: string, params: map<string, string>) returns (mapped: string)
    ensures mapped == Substituted(url, params)
  {
    var routeParams := Extract(url);
    mapped := url;
    if |routeParams| != 0 && |params| != 0 {
      var i := 0;
      while i < |routeParams|
        invariant 0 <= i <= |routeParams|
        invariant ReplaceInOrder(mapped, routeParams[i..], params) == ReplaceInOrder(url, routeParams, params)
      {
        assert routeParams[i..][1..] == routeParams[i + 1..];
        mapped := ReplaceFirst(mapped, Braced(routeParams[i]), ParamText(params, routeParams[i]));
        i := i + 1;
      }
    }
  }

  /** A URL without placeholders, or a call without parameters, is returned unchanged. */
  lemma SubstitutedUnchanged(url: string, params: map<string, string>)
    requires Extract(url) == [] || |params| == 0
    ensures Substituted(url, params) == url
  {
  }

  /** The first occurrence of a `{`-led search text after brace-free text is the
      one replaced, and a `$`-free value is inserted as it is. */
  lemma ReplaceFirstLeftmost(a: string, needle: string, b: string, rep: string)
    requires |needle| > 0 && needle[0] == '{'
    requires NoBrace(a) && NoDollar(rep)
    ensures ReplaceFirst(a + needle + b, needle, rep) == a + rep + b
  {
    var s := a + needle + b;
    assert s[|a|..|a| + |needle|] == needle;
    assert OccursAt(s, needle, |a|);
    var r := IndexOf(s, needle, 0);
    assert r.Some?;
    assert s[r.value] == s[r.value..r.value + |needle|][0] == '{';
    assert r.value == |a|;
    assert s[..|a|] == a;
    assert s[|a| + |needle|..] == b;
  }

  lemma InterleaveFront(prefix: string, lits: seq<string>, parts: seq<string>)
    requires |lits| == |parts| + 1 && |parts| > 0
    ensures prefix + Interleave(lits, parts) == prefix + lits[0] + parts[0] + Interleave(lits[1..], parts[1..])
  {
  }

  lemma {:induction false} ReplaceInOrderTemplate(prefix: string, lits: seq<string>, ids: seq<string>, params: map<string, string>)
    requires |lits| == |ids| + 1
    requires NoBrace(prefix)
    requires forall k :: 0 <= k < |lits| ==> NoBrace(lits[k])
    requires forall k :: 0 <= k < |ids| ==> NoBrace(ParamText(params, ids[k])) && NoDollar(ParamText(params, ids[k]))
    ensures ReplaceInOrder(prefix + Interleave(lits, Texts(Plain(ids))), ids, params)
         == prefix + Interleave(lits, ParamTexts(params, ids))
    decreases |ids|
  {
    if |ids| > 0 {
      var a := prefix + lits[0];
      var v := ParamText(params, ids[0]);
      var needle := Braced(ids[0]);
      var b := Interleave(lits[1..], Texts(Plain(ids))[1..]);
      var c := Interleave(lits[1..], ParamTexts(params, ids)[1..]);
      assert Texts(Plain(ids))[1..] == Texts(Plain(ids[1..]));
      assert ParamTexts(params, ids)[1..] == ParamTexts(params, ids[1..]);
      InterleaveFront(prefix, lits, Texts(Plain(ids)));
      InterleaveFront(prefix, lits, ParamTexts(params, ids));
      assert Texts(Plain(ids))[0] == needle;
      assert NoBrace(v) && NoDollar(v);
      ReplaceFirstLeftmost(a, needle, b, v);
      assert NoBrace(a + v);
      ReplaceInOrderTemplate(a + v, lits[1..], ids[1..], params);
    } else {
      assert Interleave(lits, Texts(Plain(ids))) == lits[0] == Interleave(lits, ParamTexts(params, ids));
    }
  }

  /** For a template written as brace-free text and `{id}` tokens, substitution
      puts each parameter's text where its token stood, one token per extracted
      identifier (so a repeated identifier is filled at every occurrence), and
      "undefined" where the parameter is missing; with no parameters at all the
      template is returned unchanged. */
  lemma SubstituteTemplate(lits: seq<string>, ids: seq<string>, params: map<string, string>)
    requires |lits| == |ids| + 1
    requires forall k :: 0 <= k < |lits| ==> NoBrace(lits[k])
    requires forall k :: 0 <= k < |ids| ==> IsIdent(ids[k])
    requires forall k :: 0 <= k < |ids| ==> NoBrace(ParamText(params, ids[k])) && NoDollar(ParamText(params, ids[k]))
    ensures Substituted(Interleave(lits, Texts(Plain(ids))), params)
         == if |params| == 0 then Interleave(lits, Texts(Plain(ids)))
            else Interleave(lits, ParamTexts(params, ids))
  {
    var url := Interleave(lits, Texts(Plain(ids)));
    ExtractTemplate(lits, Plain(ids));
    assert Idents(Plain(ids)) == ids;
    if |params| != 0 {
      ReplaceInOrderTemplate("", lits, ids, params);
      assert "" + url == url;
      assert "" + Interleave(lits, ParamTexts(params, ids)) == Interleave(lits, ParamTexts(params, ids));
      if |ids| == 0 {
        assert Interleave(lits, ParamTexts(params, ids)) == lits[0] == url;
      }
    }
  }

  /** A window that differs from the search text in one place is no occurrence. */
  lemma WindowDiffers(s: string, needle: string, j: nat, k: nat)
    requires j + |needle| <= |s| && k < |needle|
    requires s[j + k] != needle[k]
    ensures !OccursAt(s, needle, j)
  {
    assert s[j..j + |needle|][k] == s[j + k];
  }

  /** What follows the `{` of a token written in a permitted form holds no `{`. */
  lemma TokenTailNoBrace(p: Placeholder, lit1: string)
    requires p.Valid() && NoBrace(lit1)
    ensures NoBrace(p.lead + p.ident + p.trail + "}" + lit1)
  {
    var rest := p.lead + p.ident + p.trail + "}" + lit1;
    forall k | 0 <= k < |rest| ensures rest[k] != '{' {
      var n1 := |p.lead|;
      var n2 := n1 + |p.ident|;
      var n3 := n2 + |p.trail|;
      if k < n1 { assert rest[k] == p.lead[k]; }
      else if k < n2 { assert rest[k] == p.ident[k - n1]; }
      else if k < n3 { assert rest[k] == p.trail[k - n2]; }
      else if k == n3 { assert rest[k] == '}'; }
      else { assert rest[k] == lit1[k - n3 - 1]; }
    }
  }

  /** The search text `{id}` does not occur in a template whose only token
      is `id` written with inner whitespace. */
  lemma SpacedNeedleAbsent(lit0: string, p: Placeholder, lit1: string, j: nat)
    requires p.Valid() && |p.lead| + |p.trail| > 0
    requires NoBrace(lit0) && NoBrace(lit1)
    ensures !OccursAt(lit0 + p.Text() + lit1, Braced(p.ident), j)
  {
    var s := lit0 + p.Text() + lit1;
    var needle := Braced(p.ident);
    var rest := p.lead + p.ident + p.trail + "}" + lit1;
    var n := |lit0|;
    assert s == lit0 + "{" + rest;
    assert needle == "{" + p.ident + "}";
    TokenTailNoBrace(p, lit1);
    if j + |needle| <= |s| {
      if j < n {
        assert s[j] == lit0[j];
        WindowDiffers(s, needle, j, 0);
      } else if j > n {
        assert s[j] == rest[j - n - 1];
        WindowDiffers(s, needle, j, 0);
      } else if |p.lead| > 0 {
        assert s[n + 1] == p.lead[0] && IsSpace(p.lead[0]);
        assert needle[1] == p.ident[0] && IsIdentChar(p.ident[0]);
        WindowDiffers(s, needle, j, 1);
      } else {
        var m := 1 + |p.ident|;
        assert s[n + m] == p.trail[0] && IsSpace(p.trail[0]);
        assert needle[m] == '}';
        WindowDiffers(s, needle, j, m);
      }
    }
  }

  /** In a URL whose only token it is, a token written with inner whitespace,
      such as `{ id }`, is reported by extraction, but the search text `{id}`
      never finds it, so it stays. */
  lemma SpacedTokenUntouched(lit0: string, p: Placeholder, lit1: string, params: map<string, string>)
    requires p.Valid() && |p.lead| + |p.trail| > 0
    requires NoBrace(lit0) && NoBrace(lit1)
    ensures Extract(lit0 + p.Text() + lit1) == [p.ident]
    ensures Substituted(lit0 + p.Text() + lit1, params) == lit0 + p.Text() + lit1
  {
    var s := lit0 + p.Text() + lit1;
    ExtractTemplate([lit0, lit1], [p]);
    assert Interleave([lit0, lit1], Texts([p])) == s by {
      assert Interleave([lit0, lit1][1..], Texts([p])[1..]) == lit1;
    }
    assert Idents([p]) == [p.ident];
    if |params| != 0 {
      var needle := Braced(p.ident);
      forall j: nat ensures !OccursAt(s, needle, j) {
        SpacedNeedleAbsent(lit0, p, lit1, j);
      }
      assert ReplaceInOrder(s, [p.ident], params) == ReplaceFirst(s, needle, ParamText(params, p.ident));
    }
  }
}
