/** The text and the value table of the UpdateExpression that
    `updateItemWithPrimarySortKey` sends (index.js:168-177).

    For attributes `a`, `b` the text is `set a = :a_value b = :b_value`: the
    keyword `set`, then for each attribute a space, its name, ` = `, and its
    placeholder. Clauses are separated by a space only; no comma is written. */
module UpdateExpression {
  import opened Js

  /** The placeholder bound to an attribute's new value: `:` + name + `_value`. */
  function Placeholder(name: string): string {
    ":" + name + "_value"
  }

  /** The clause the loop appends for one attribute. */
  function Clause(name: string): string {
    " " + name + " = " + Placeholder(name)
  }

  /** The clauses for `names`, in order. */
  function SetClauses(names: seq<string>): string
    decreases |names|
  {
    if names == [] then ""
    else SetClauses(names[..|names| - 1]) + Clause(names[|names| - 1])
  }

  /** The whole UpdateExpression for the attributes `names`: the keyword
      `set`, then one clause per name, in order. */
  function Text(names: seq<string>): (t: string)
    ensures |t| >= 3 && t[..3] == "set"
    ensures names != [] ==> t == Text(names[..|names| - 1]) + Clause(names[|names| - 1])
    decreases |names|
  {
    if names != [] then
      ConcatAssoc("set", SetClauses(names[..|names| - 1]), Clause(names[|names| - 1]));
      "set" + SetClauses(names)
    else "set" + SetClauses(names)
  }

  /** `ExpressionAttributeValues`: one entry per attribute, in the
      attributes' order, each under that attribute's placeholder with its value. */
  function PlaceholderValues(attrs: Object): (r: Object)
    ensures |r| == |attrs|
    ensures forall i :: 0 <= i < |attrs| ==> r[i] == (Placeholder(attrs[i].0), attrs[i].1)
    decreases |attrs|
  {
    if attrs == [] then []
    else
      var n := |attrs| - 1;
      assert forall i :: 0 <= i < n ==> attrs[..n][i] == attrs[i];
      PlaceholderValues(attrs[..n]) + [(Placeholder(attrs[n].0), attrs[n].1)]
  }

  /** Distinct attribute names have distinct placeholders. */
  lemma PlaceholderInjective(a: string, b: string)
    ensures Placeholder(a) == Placeholder(b) <==> a == b
  {
    if Placeholder(a) == Placeholder(b) {
      assert |a| == |b|;
      assert a == Placeholder(a)[1..|a| + 1];
      assert b == Placeholder(b)[1..|b| + 1];
    }
  }

  /** Looking up an attribute's placeholder in the value table gives that
      attribute's value; a name the map does not hold has no entry. */
  lemma {:induction false} PlaceholderValuesGet(attrs: Object, name: string)
    ensures Get(PlaceholderValues(attrs), Placeholder(name)) == Get(attrs, name)
    decreases |attrs|
  {
    if attrs != [] {
      var pv := PlaceholderValues(attrs);
      PlaceholderInjective(attrs[0].0, name);
      assert pv[0] == (Placeholder(attrs[0].0), attrs[0].1);
      if attrs[0].0 != name {
        assert pv[1..] == PlaceholderValues(attrs[1..]);
        PlaceholderValuesGet(attrs[1..], name);
      }
    }
  }

  /** A map with distinct names gives a value table with distinct placeholders. */
  lemma PlaceholderValuesDistinct(attrs: Object)
    requires DistinctKeys(attrs)
    ensures DistinctKeys(PlaceholderValues(attrs))
  {
    forall i, j | 0 <= i < j < |attrs|
      ensures PlaceholderValues(attrs)[i].0 != PlaceholderValues(attrs)[j].0
    {
      PlaceholderInjective(attrs[i].0, attrs[j].0);
    }
  }

  /** The placeholder of the next attribute is not yet in the table built
      from the attributes before it. */
  lemma PlaceholderFresh(attrs: Object, i: nat)
    requires DistinctKeys(attrs) && i < |attrs|
    ensures Placeholder(attrs[i].0) !in Keys(PlaceholderValues(attrs[..i]))
  {
    var prefix := attrs[..i];
    forall j | 0 <= j < i
      ensures Keys(PlaceholderValues(prefix))[j] != Placeholder(attrs[i].0)
    {
      PlaceholderInjective(attrs[j].0, attrs[i].0);
    }
  }

  /** The loop's `i`-th step: the text for the first `i + 1` names. */
  lemma TextStep(names: seq<string>, i: nat)
    requires i < |names|
    ensures Text(names[..i + 1]) == Text(names[..i]) + Clause(names[i])
  {
    assert names[..i + 1][..i] == names[..i];
  }

  /** The loop's `i`-th step: the table for the first `i + 1` attributes. */
  lemma PlaceholderValuesStep(attrs: Object, i: nat)
    requires i < |attrs|
    ensures PlaceholderValues(attrs[..i + 1]) ==
      PlaceholderValues(attrs[..i]) + [(Placeholder(attrs[i].0), attrs[i].1)]
  {
    assert attrs[..i + 1][..i] == attrs[..i];
  }
}
