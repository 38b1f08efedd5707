/**
 * Concrete cases. Those whose comment cites a line are cases of the
 * repository's test suite (test/index.test.js); the others are edge cases
 * of the model's own. All are derived from the general lemmas, and the two
 * methods at the end are clients of the registry that use only the
 * contracts of its methods.
 */
module Scenarios {
  import opened Wrappers
  import opened Placeholders
  import opened Substitution
  import opened RouteGen
  import OrderedMap

  lemma InterleaveOne(l0: string, p0: string, l1: string)
    ensures Interleave([l0, l1], [p0]) == l0 + p0 + l1
  {
    assert Interleave([l0, l1][1..], [p0][1..]) == l1;
  }

  lemma InterleaveTwo(l0: string, p0: string, l1: string, p1: string, l2: string)
    ensures Interleave([l0, l1, l2], [p0, p1]) == l0 + p0 + l1 + p1 + l2
  {
    assert [l0, l1, l2][1..] == [l1, l2];
    InterleaveOne(l1, p1, l2);
  }

  /** test/index.test.js:150: `_getUrlParams('/foo/{id}')` is `['id']`. */
  lemma ExtractOneToken()
    ensures Extract("/foo/{id}") == ["id"]
  {
    var id := Placeholder("", "id", "");
    ExtractTemplate(["/foo/", ""], [id]);
    assert Idents([id]) == ["id"];
    assert Interleave(["/foo/", ""], Texts([id])) == "/foo/{id}" by {
      assert Texts([id]) == ["{id}"] by {
        assert id.Text() == "{id}";
      }
      InterleaveOne("/foo/", "{id}", "");
    }
  }

  /** test/index.test.js:156: `_getUrlParams('/foo/{id}/{foo}')` is `['id', 'foo']`. */
  lemma ExtractTwoTokens()
    ensures Extract("/foo/{id}/{foo}") == ["id", "foo"]
  {
    var id := Placeholder("", "id", "");
    var foo := Placeholder("", "foo", "");
    ExtractTemplate(["/foo/", "/", ""], [id, foo]);
    assert Idents([id, foo]) == ["id", "foo"];
    assert Texts([id, foo]) == [id.Text(), foo.Text()];
    assert id.Text() == "{id}" && foo.Text() == "{foo}";
    InterleaveTwo("/foo/", "{id}", "/", "{foo}", "");
    assert "/foo/" + "{id}" + "/" + "{foo}" + "" == "/foo/{id}/{foo}";
  }

  /** Edge case: a `{` that does not start a token is passed over: `{{id}` gives `['id']`. */
  lemma ExtractStrayBrace()
    ensures Extract("{{id}") == ["id"]
  {
    assert MatchToken("{{id}") == None by {
      assert SkipSpace("{{id}", 1) == 1;
      assert SkipIdent("{{id}", 1) == 1;
    }
    assert "{{id}"[1..] == "{id}";
    var id := Placeholder("", "id", "");
    ExtractToken(id, "");
    assert id.Text() + "" == "{id}";
  }

  /** Edge case: inner whitespace is not part of the identifier. */
  lemma ExtractSpacedToken()
    ensures Extract("/foo/{ id }") == ["id"]
  {
    var id := Placeholder(" ", "id", " ");
    ExtractTemplate(["/foo/", ""], [id]);
    assert Texts([id]) == [id.Text()];
    assert id.Text() == "{ id }";
    InterleaveOne("/foo/", "{ id }", "");
    assert "/foo/" + "{ id }" + "" == "/foo/{ id }";
  }

  /** test/index.test.js:112: `generate('foo_bar', { id: 1 })` on `/bar/{id}` is `/bar/1`. */
  lemma SubstituteOneParam()
    ensures Substituted("/bar/{id}", map["id" := "1"]) == "/bar/1"
  {
    var params := map["id" := "1"];
    var lits, ids := ["/bar/", ""], ["id"];
    assert Interleave(lits, Texts(Plain(ids))) == "/bar/{id}" by {
      assert Texts(Plain(ids)) == ["{id}"] by {
        assert Placeholder("", "id", "").Text() == "{id}";
      }
      InterleaveOne("/bar/", "{id}", "");
    }
    assert Interleave(lits, ParamTexts(params, ids)) == "/bar/1" by {
      assert ParamTexts(params, ids) == ["1"];
      InterleaveOne("/bar/", "1", "");
    }
    SubstituteTemplate(lits, ids, params);
  }

  /** test/index.test.js:118: `generate('foo_bar_baz', { id: 134, name: 'drew' })`
      on `/bar/{id}/{name}/foo` is `/bar/134/drew/foo`. */
  lemma SubstituteNamedParams()
    ensures Substituted("/bar/{id}/{name}/foo", map["id" := "134", "name" := "drew"]) == "/bar/134/drew/foo"
  {
    var params := map["id" := "134", "name" := "drew"];
    var lits, ids := ["/bar/", "/", "/foo"], ["id", "name"];
    assert Interleave(lits, Texts(Plain(ids))) == "/bar/{id}/{name}/foo" by {
      assert Texts(Plain(ids)) == ["{id}", "{name}"] by {
        assert Placeholder("", "id", "").Text() == "{id}";
        assert Placeholder("", "name", "").Text() == "{name}";
      }
      InterleaveTwo("/bar/", "{id}", "/", "{name}", "/foo");
    }
    assert Interleave(lits, ParamTexts(params, ids)) == "/bar/134/drew/foo" by {
      assert ParamTexts(params, ids) == ["134", "drew"];
      InterleaveTwo("/bar/", "134", "/", "drew", "/foo");
    }
    SubstituteTemplate(lits, ids, params);
  }

  /** test/index.test.js:170: `_replaceURLParams('/foo/{id}/{foo}', { id: 1, foo: 'bar' })` is `'/foo/1/bar'`. */
  lemma SubstituteTwoParams()
    ensures Substituted("/foo/{id}/{foo}", map["id" := "1", "foo" := "bar"]) == "/foo/1/bar"
  {
    var params := map["id" := "1", "foo" := "bar"];
    var lits, ids := ["/foo/", "/", ""], ["id", "foo"];
    assert Interleave(lits, Texts(Plain(ids))) == "/foo/{id}/{foo}" by {
      assert Texts(Plain(ids)) == ["{id}", "{foo}"] by {
        assert Placeholder("", "id", "").Text() == "{id}";
        assert Placeholder("", "foo", "").Text() == "{foo}";
      }
      InterleaveTwo("/foo/", "{id}", "/", "{foo}", "");
    }
    assert Interleave(lits, ParamTexts(params, ids)) == "/foo/1/bar" by {
      assert ParamTexts(params, ids) == ["1", "bar"];
      InterleaveTwo("/foo/", "1", "/", "bar", "");
    }
    SubstituteTemplate(lits, ids, params);
  }

  /** Edge case: a token repeated twice is filled twice. */
  lemma SubstituteRepeated()
    ensures Substituted("/a/{id}/{id}", map["id" := "7"]) == "/a/7/7"
  {
    var params := map["id" := "7"];
    var lits, ids := ["/a/", "/", ""], ["id", "id"];
    assert Interleave(lits, Texts(Plain(ids))) == "/a/{id}/{id}" by {
      assert Texts(Plain(ids)) == ["{id}", "{id}"] by {
        assert Placeholder("", "id", "").Text() == "{id}";
      }
      InterleaveTwo("/a/", "{id}", "/", "{id}", "");
    }
    assert Interleave(lits, ParamTexts(params, ids)) == "/a/7/7" by {
      assert ParamTexts(params, ids) == ["7", "7"];
      InterleaveTwo("/a/", "7", "/", "7", "");
    }
    SubstituteTemplate(lits, ids, params);
  }

  /** Edge case: a parameter missing from a non-empty map is filled with "undefined". */
  lemma SubstituteMissing()
    ensures Substituted("/a/{id}", map["x" := "1"]) == "/a/undefined"
  {
    var params := map["x" := "1"];
    var lits, ids := ["/a/", ""], ["id"];
    assert Interleave(lits, Texts(Plain(ids))) == "/a/{id}" by {
      assert Texts(Plain(ids)) == ["{id}"] by {
        assert Placeholder("", "id", "").Text() == "{id}";
      }
      InterleaveOne("/a/", "{id}", "");
    }
    assert Interleave(lits, ParamTexts(params, ids)) == "/a/undefined" by {
      assert ParamTexts(params, ids) == ["undefined"];
      InterleaveOne("/a/", "undefined", "");
    }
    SubstituteTemplate(lits, ids, params);
  }

  /** Edge case: `{ id }` is reported by extraction but left in place by substitution. */
  lemma SubstituteSpaced()
    ensures Substituted("/a/{ id }", map["id" := "1"]) == "/a/{ id }"
  {
    var spaced := Placeholder(" ", "id", " ");
    SpacedTokenUntouched("/a/", spaced, "", map["id" := "1"]);
    assert "/a/" + spaced.Text() + "" == "/a/{ id }";
  }

  /** Proof step of SubstituteSpacedThenPlain: both tokens are extracted. */
  lemma SpacedThenPlainExtract()
    ensures Extract("/a/{ id }/{id}") == ["id", "id"]
  {
    var ps := [Placeholder(" ", "id", " "), Placeholder("", "id", "")];
    var lits := ["/a/", "/", ""];
    assert Interleave(lits, Texts(ps)) == "/a/{ id }/{id}" by {
      assert Texts(ps) == ["{ id }", "{id}"] by {
        assert ps[0].Text() == "{ id }" && ps[1].Text() == "{id}";
      }
      InterleaveTwo("/a/", "{ id }", "/", "{id}", "");
    }
    assert Idents(ps) == ["id", "id"];
    ExtractTemplate(lits, ps);
  }

  /** Proof step of SubstituteSpacedThenPlain: the leftmost `{id}` in
      `/a/{ id }/{id}` is the plain token at index 10. */
  lemma SpacedThenPlainIndex()
    ensures IndexOf("/a/{ id }/{id}", "{id}", 0) == Some(10)
  {
    var s := "/a/{ id }/{id}";
    var needle := "{id}";
    forall j: nat | j < 10 ensures !OccursAt(s, needle, j) {
      if j == 3 {
        assert s[4] == ' ';
        WindowDiffers(s, needle, j, 1);
      } else {
        assert s[j] != '{';
        WindowDiffers(s, needle, j, 0);
      }
    }
    assert s[10..14] == needle;
    assert OccursAt(s, needle, 10);
  }

  /** Proof step of SubstituteSpacedThenPlain: the first `replace` fills the plain token. */
  lemma SpacedThenPlainFirst()
    ensures ReplaceFirst("/a/{ id }/{id}", "{id}", "1") == "/a/{ id }/1"
  {
    var s := "/a/{ id }/{id}";
    SpacedThenPlainIndex();
    assert NoDollar("1");
    assert s[..10] == "/a/{ id }/" && s[14..] == "";
  }

  /** Proof step of SubstituteSpacedThenPlain: the second `replace` finds nothing. */
  lemma SpacedThenPlainSecond()
    ensures ReplaceFirst("/a/{ id }/1", "{id}", "1") == "/a/{ id }/1"
  {
    var spaced := Placeholder(" ", "id", " ");
    assert "/a/" + spaced.Text() + "/1" == "/a/{ id }/1";
    assert Braced("id") == "{id}";
    forall j: nat ensures !OccursAt("/a/{ id }/1", "{id}", j) {
      SpacedNeedleAbsent("/a/", spaced, "/1", j);
    }
  }

  /** Proof step of SubstituteSpacedThenPlain and SubstituteValueHoldsToken:
      with two extracted identifiers, substitution is two first-occurrence
      replacements in order. */
  lemma SubstitutedTwoIds(url: string, id1: string, id2: string, params: map<string, string>, once: string, twice: string)
    requires Extract(url) == [id1, id2] && |params| != 0
    requires ReplaceFirst(url, Braced(id1), ParamText(params, id1)) == once
    requires ReplaceFirst(once, Braced(id2), ParamText(params, id2)) == twice
    ensures Substituted(url, params) == twice
  {
    assert Substituted(url, params) == ReplaceInOrder(url, [id1, id2], params);
    assert [id1, id2][1..] == [id2] && [id2][1..] == [];
    assert ReplaceInOrder(url, [id1, id2], params) == ReplaceInOrder(once, [id2], params);
    assert ReplaceInOrder(once, [id2], params) == ReplaceInOrder(twice, [], params);
  }

  /** Edge case: when a URL holds `{ id }` and then `{id}`, both occurrences
      of `id` are extracted, and the first replacement fills the plain token;
      the spaced token is left as it is. */
  lemma SubstituteSpacedThenPlain()
    ensures Substituted("/a/{ id }/{id}", map["id" := "1"]) == "/a/{ id }/1"
  {
    assert Braced("id") == "{id}" by {
      assert Placeholder("", "id", "").Text() == "{id}";
    }
    assert ParamText(map["id" := "1"], "id") == "1";
    SpacedThenPlainExtract();
    SpacedThenPlainFirst();
    SpacedThenPlainSecond();
    SubstitutedTwoIds("/a/{ id }/{id}", "id", "id", map["id" := "1"], "/a/{ id }/1", "/a/{ id }/1");
  }

  /** Proof step of SubstituteValueHoldsToken: both tokens are extracted. */
  lemma ValueHoldsTokenExtract()
    ensures Extract("/a/{x}/{y}") == ["x", "y"]
  {
    var ps := Plain(["x", "y"]);
    var lits := ["/a/", "/", ""];
    assert Interleave(lits, Texts(ps)) == "/a/{x}/{y}" by {
      assert Texts(ps) == ["{x}", "{y}"] by {
        assert ps[0].Text() == "{x}" && ps[1].Text() == "{y}";
      }
      InterleaveTwo("/a/", "{x}", "/", "{y}", "");
    }
    assert Idents(ps) == ["x", "y"];
    ExtractTemplate(lits, ps);
  }

  /** Proof step of SubstituteValueHoldsToken: `{x}` becomes `{y}`. */
  lemma ValueHoldsTokenFirst()
    ensures ReplaceFirst("/a/{x}/{y}", "{x}", "{y}") == "/a/{y}/{y}"
  {
    assert NoBrace("/a/") && NoDollar("{y}");
    ReplaceFirstLeftmost("/a/", "{x}", "/{y}", "{y}");
    assert "/a/" + "{x}" + "/{y}" == "/a/{x}/{y}";
    assert "/a/" + "{y}" + "/{y}" == "/a/{y}/{y}";
  }

  /** Proof step of SubstituteValueHoldsToken: the first `{y}` is the one the value put there. */
  lemma ValueHoldsTokenSecond()
    ensures ReplaceFirst("/a/{y}/{y}", "{y}", "Y") == "/a/Y/{y}"
  {
    assert NoBrace("/a/") && NoDollar("Y");
    ReplaceFirstLeftmost("/a/", "{y}", "/{y}", "Y");
    assert "/a/" + "{y}" + "/{y}" == "/a/{y}/{y}";
    assert "/a/" + "Y" + "/{y}" == "/a/Y/{y}";
  }

  /** Edge case: a value that holds another token's search text is itself
      filled by the later replacement, and the template's own `{y}` stays. */
  lemma SubstituteValueHoldsToken()
    ensures Substituted("/a/{x}/{y}", map["x" := "{y}", "y" := "Y"]) == "/a/Y/{y}"
  {
    var params := map["x" := "{y}", "y" := "Y"];
    assert Braced("x") == "{x}" by {
      assert Placeholder("", "x", "").Text() == "{x}";
    }
    assert Braced("y") == "{y}" by {
      assert Placeholder("", "y", "").Text() == "{y}";
    }
    assert ParamText(params, "x") == "{y}" && ParamText(params, "y") == "Y";
    ValueHoldsTokenExtract();
    ValueHoldsTokenFirst();
    ValueHoldsTokenSecond();
    SubstitutedTwoIds("/a/{x}/{y}", "x", "y", params, "/a/{y}/{y}", "/a/Y/{y}");
  }

  /** test/index.test.js:88-91: after two `set` calls with different keys,
      `all()` has two entries. */
  lemma AllCountsRoutes()
    ensures |OrderedMap.Entries(OrderedMap.Put(OrderedMap.Put(OrderedMap.Empty(), "foo", "/bar"), "bar", "/foo/bar"))| == 2
  {
    var t1 := OrderedMap.Put(OrderedMap.Empty(), "foo", "/bar");
    OrderedMap.PutOrder(OrderedMap.Empty(), "foo", "/bar");
    OrderedMap.PutOrder(t1, "bar", "/foo/bar");
  }

  /** test/index.test.js:33-80: `prefix({ path: '/auth/foo', name: 'auth' }, { foo: '/bar' })` registers
      `auth_foo` as `/auth/foo/bar`; without a name the key stays `foo`. */
  lemma PrefixCases()
    ensures OrderedMap.Get(OrderedMap.PutAll(OrderedMap.Empty(), Prefixed("auth", "/auth/foo", [("foo", "/bar")])), "auth_foo")
         == Some("/auth/foo/bar")
    ensures OrderedMap.Get(OrderedMap.PutAll(OrderedMap.Empty(), Prefixed("", "/auth/foo", [("foo", "/bar")])), "foo")
         == Some("/auth/foo/bar")
  {
    PrefixRegisters(OrderedMap.Empty(), "auth", "/auth/foo", [("foo", "/bar")], 0);
    assert NamePrefix("auth") + "foo" == "auth_foo";
    assert "/auth/foo" + "/bar" == "/auth/foo/bar";
    PrefixRegisters(OrderedMap.Empty(), "", "/auth/foo", [("foo", "/bar")], 0);
    assert NamePrefix("") + "foo" == "foo";
  }

  /** test/index.test.js:197: the interpolated route of the `lock()` cases. */
  lemma SubstituteLockedCase()
    ensures Substituted("/foo/bar/{id}", map["id" := "123"]) == "/foo/bar/123"
  {
    var params := map["id" := "123"];
    var lits, ids := ["/foo/bar/", ""], ["id"];
    assert Interleave(lits, Texts(Plain(ids))) == "/foo/bar/{id}" by {
      assert Texts(Plain(ids)) == ["{id}"] by {
        assert Placeholder("", "id", "").Text() == "{id}";
      }
      InterleaveOne("/foo/bar/", "{id}", "");
    }
    assert Interleave(lits, ParamTexts(params, ids)) == "/foo/bar/123" by {
      assert ParamTexts(params, ids) == ["123"];
      InterleaveOne("/foo/bar/", "123", "");
    }
    SubstituteTemplate(lits, ids, params);
  }

  /** test/index.test.js:192-197: the view generates from the registry's routes. */
  method LockedViewGenerates() {
    var routes := new Registry("");
    routes.Set("foo_bar", "/foo/bar");
    routes.Set("foo_bar_baz", "/foo/bar/{id}");
    assert routes.routes["foo_bar"] == "/foo/bar";
    assert routes.routes["foo_bar_baz"] == "/foo/bar/{id}";
    var locked := routes.Lock();

    var url := locked.Generate("foo_bar", map[]);
    assert routes.Get("foo_bar") == "/foo/bar";
    SubstitutedUnchanged("/foo/bar", map[]);
    assert url == "/foo/bar";

    url := locked.Generate("foo_bar_baz", map["id" := "123"]);
    assert routes.Get("foo_bar_baz") == "/foo/bar/{id}";
    SubstituteLockedCase();
    assert url == "/foo/bar/123";
  }

  /** Edge case: the view is not a copy: a route registered after `lock()` is listed by
      the view's `all()`, after the earlier ones. */
  method LockedViewSeesLaterRoutes() {
    var routes := new Registry("");
    routes.Set("foo_bar", "/foo/bar");
    var locked := routes.Lock();
    routes.Set("later", "/later");
    assert routes.keys == ["foo_bar", "later"];
    var all := locked.All();
    assert |all| == 2;
    assert all[1] == OrderedMap.Route("later", "/later");
  }
}
