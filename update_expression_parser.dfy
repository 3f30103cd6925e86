/** A reader for the UpdateExpression text, written independently of the
    builder: split the text at every space, expect the keyword `set`, then
    read triples `name`, `=`, `:name_value`.

    Reading the builder's text back recovers the attribute names exactly when
    no name contains a space. The code writes names bare, without
    `ExpressionAttributeNames` placeholders, so a name with a space splits
    into several tokens and the text no longer describes the attributes the
    caller gave. This reader splits at the space character only; other
    whitespace, such as a tab, stays inside a token. */
module UpdateExpressionParser {
  import opened Js
  import opened UpdateExpression

  /** The position of the first space in `s`. */
  function FirstSpace(s: string): (i: nat)
    requires ' ' in s
    ensures i < |s| && s[i] == ' ' && ' ' !in s[..i]
  {
    if s[0] == ' ' then 0
    else
      var j := FirstSpace(s[1..]);
      assert s[..j + 1] == [s[0]] + s[1..][..j];
      j + 1
  }

  /** `s.split(' ')`: the pieces between the spaces, none of which holds a space. */
  function Tokens(s: string): (ts: seq<string>)
    ensures |ts| >= 1
    decreases |s|
  {
    if ' ' !in s then [s]
    else
      var i := FirstSpace(s);
      [s[..i]] + Tokens(s[i + 1..])
  }

  /** No token holds a space. */
  lemma {:induction false} TokensHaveNoSpace(s: string)
    ensures forall t :: t in Tokens(s) ==> ' ' !in t
    decreases |s|
  {
    if ' ' in s {
      var i := FirstSpace(s);
      TokensHaveNoSpace(s[i + 1..]);
    }
  }

  /** The first space is the unique space with no space before it. */
  lemma FirstSpaceUnique(s: string, j: nat)
    requires j < |s| && s[j] == ' ' && ' ' !in s[..j]
    ensures FirstSpace(s) == j
  {
  }

  /** Cutting joined text inside its left side. */
  lemma JoinSlices(a: string, b: string, i: nat)
    requires i < |a|
    ensures (a + " " + b)[..i] == a[..i]
    ensures (a + " " + b)[i + 1..] == a[i + 1..] + " " + b
  {
  }

  /** Splitting text joined by one space splits each side. */
  lemma {:induction false} TokensJoin(a: string, b: string)
    ensures Tokens(a + " " + b) == Tokens(a) + Tokens(b)
    decreases |a|
  {
    var c := a + " " + b;
    assert c[|a|] == ' ';
    if ' ' !in a {
      assert c[..|a|] == a;
      FirstSpaceUnique(c, |a|);
      assert c[|a| + 1..] == b;
      assert Tokens(c) == [a] + Tokens(b);
    } else {
      var i := FirstSpace(a);
      var rest := a[i + 1..];
      JoinSlices(a, b, i);
      FirstSpaceUnique(c, i);
      TokensJoin(rest, b);
      calc {
        Tokens(c);
        [a[..i]] + Tokens(rest + " " + b);
        [a[..i]] + (Tokens(rest) + Tokens(b));
        { ConcatAssoc([a[..i]], Tokens(rest), Tokens(b)); }
        ([a[..i]] + Tokens(rest)) + Tokens(b);
        Tokens(a) + Tokens(b);
      }
    }
  }

  /** Reads clause triples from the end; `None` when the tokens are not
      a sequence of `name = :name_value` triples. */
  function ReadClauses(ts: seq<string>): Option<seq<string>>
    decreases |ts|
  {
    if ts == [] then Some([])
    else if |ts| < 3 then None
    else
      var k := |ts| - 3;
      if ts[k + 1] == "=" && ts[k + 2] == Placeholder(ts[k]) then
        match ReadClauses(ts[..k])
        case None => None
        case Some(ns) => Some(ns + [ts[k]])
      else None
  }

  /** Every name read is one of the tokens. */
  lemma {:induction false} ReadClausesNames(ts: seq<string>)
    ensures ReadClauses(ts).Some? ==> forall n :: n in ReadClauses(ts).value ==> n in ts
    decreases |ts|
  {
    if |ts| >= 3 {
      var k := |ts| - 3;
      ReadClausesNames(ts[..k]);
    }
  }

  /** The attribute names an UpdateExpression text sets, if it is well formed. */
  function Parse(text: string): Option<seq<string>> {
    var ts := Tokens(text);
    if ts[0] == "set" then ReadClauses(ts[1..]) else None
  }

  /** The tokens of the builder's text for space-free names. */
  function ClauseTokens(names: seq<string>): seq<string>
    decreases |names|
  {
    if names == [] then []
    else
      var n := names[|names| - 1];
      ClauseTokens(names[..|names| - 1]) + [n, "=", Placeholder(n)]
  }

  predicate SpaceFree(names: seq<string>) {
    forall n :: n in names ==> ' ' !in n
  }

  /** A clause is its three tokens, each after a space. */
  lemma ClauseSpaces(t: string, n: string)
    ensures t + Clause(n) == t + " " + (n + " " + ("=" + " " + Placeholder(n)))
  {
  }

  /** Text without a space is one token. */
  lemma TokensSpaceFree(s: string)
    requires ' ' !in s
    ensures Tokens(s) == [s]
  {
  }

  /** One more clause adds exactly its three tokens. */
  lemma ClauseJoin(t: string, n: string)
    requires ' ' !in n
    ensures Tokens(t + Clause(n)) == Tokens(t) + [n, "=", Placeholder(n)]
  {
    var p := Placeholder(n);
    var r := "=" + " " + p;
    var q := n + " " + r;
    assert Tokens(r) == ["=", p] by {
      assert ' ' !in p by { assert p == ":" + n + "_value"; }
      assert ' ' !in "=";
      TokensJoin("=", p);
      TokensSpaceFree("=");
      TokensSpaceFree(p);
    }
    assert Tokens(q) == [n, "=", p] by {
      TokensJoin(n, r);
      TokensSpaceFree(n);
    }
    ClauseSpaces(t, n);
    TokensJoin(t, q);
  }

  lemma {:induction false} TextTokens(names: seq<string>)
    requires SpaceFree(names)
    ensures Tokens(Text(names)) == ["set"] + ClauseTokens(names)
    decreases |names|
  {
    if names != [] {
      var init := names[..|names| - 1];
      var n := names[|names| - 1];
      assert SpaceFree(init) by {
        forall m | m in init ensures ' ' !in m { assert m in names; }
      }
      assert ' ' !in n by { assert n in names; }
      TextTokens(init);
      ClauseJoin(Text(init), n);
      calc {
        Tokens(Text(names));
        Tokens(Text(init)) + [n, "=", Placeholder(n)];
        (["set"] + ClauseTokens(init)) + [n, "=", Placeholder(n)];
        { ConcatAssoc(["set"], ClauseTokens(init), [n, "=", Placeholder(n)]); }
        ["set"] + ClauseTokens(names);
      }
    } else {
      assert Text(names) == "set";
      TokensSpaceFree("set");
    }
  }

  lemma {:induction false} ReadClauseTokens(names: seq<string>)
    ensures ReadClauses(ClauseTokens(names)) == Some(names)
    decreases |names|
  {
    if names != [] {
      var init := names[..|names| - 1];
      var n := names[|names| - 1];
      var pre := ClauseTokens(init);
      var ts := ClauseTokens(names);
      assert ts == pre + [n, "=", Placeholder(n)];
      var k := |ts| - 3;
      assert ts[k] == n && ts[k + 1] == "=" && ts[k + 2] == Placeholder(n);
      assert ts[..k] == pre;
      ReadClauseTokens(init);
      assert init + [n] == names;
    }
  }

  /** Round trip: the text the builder writes reads back as the attribute
      names it was built from if and only if no name contains a space. */
  lemma ParseText(names: seq<string>)
    ensures Parse(Text(names)) == Some(names) <==> SpaceFree(names)
  {
    var ts := Tokens(Text(names));
    if SpaceFree(names) {
      TextTokens(names);
      assert ts[1..] == ClauseTokens(names);
      ReadClauseTokens(names);
    } else {
      TokensHaveNoSpace(Text(names));
      ReadClausesNames(ts[1..]);
      var m :| m in names && ' ' in m;
      assert m !in ts[1..];
    }
  }

  /** The builder's text sets exactly one attribute per clause: for space-free
      names, reading it back gives as many names, in the same order. */
  lemma ClauseCount(names: seq<string>)
    requires SpaceFree(names)
    ensures Parse(Text(names)).Some? && |Parse(Text(names)).value| == |names|
  {
    ParseText(names);
  }

  /** test/test.js:82-89 leaves out an update of the attribute
      `atr con espacios`: the text built for it does not describe it. */
  lemma NameWithSpacesIsMisread()
    ensures Parse(Text(["atr con espacios"])) != Some(["atr con espacios"])
  {
    var n := "atr con espacios";
    assert n[3] == ' ';
    assert !SpaceFree([n]) by { assert n in [n]; }
    ParseText([n]);
  }
}
