/**
 * `StringSplitter.splitOnCommaSpace`: the comma-separated fields of a string,
 * trimmed as Java's `String.trim` does, with the blank ones dropped.
 */
module StringSplitter {
  import opened Text
  import opened Collections

  /** A field survives when it is not blank once trimmed. */
  predicate Kept(field: string)
  {
    JavaTrim(field) != []
  }

  /** The items the splitter returns, as a comprehension over the fields. */
  function Items(input: string): seq<string>
  {
    MapFilter(Split(input, ','), Kept, JavaTrim)
  }

  /**
   * Java's `split(",")` also drops trailing empty fields; those would be
   * dropped as blank anyway, so splitting with every field kept gives the
   * same list.
   */
  method SplitOnCommaSpace(input: string) returns (list: seq<string>)
    ensures list == Items(input)
  {
    var splits := Split(input, ',');
    list := [];
    for i := 0 to |splits|
      invariant list == MapFilter(splits[..i], Kept, JavaTrim)
    {
      assert splits[..i + 1] == splits[..i] + [splits[i]];
      MapFilterStep(splits[..i], splits[i], Kept, JavaTrim);
      var trimmed := JavaTrim(splits[i]);
      if |trimmed| > 0 {
        list := list + [trimmed];
      }
    }
    assert splits[..|splits|] == splits;
  }

  /** A trimmed string neither starts nor ends with a blank, and it is a piece of the original. */
  lemma JavaTrimFacts(s: string)
    ensures var r := JavaTrim(s); r == [] || (!IsJavaBlank(r[0]) && !IsJavaBlank(r[|r| - 1]))
    ensures forall c :: c in JavaTrim(s) ==> c in s
  {
    var e := TrimEnd(s, IsJavaBlank);
    var r := TrimStart(e, IsJavaBlank);
    TrimEndFacts(s, IsJavaBlank);
    TrimStartFacts(e, IsJavaBlank);
    if r != [] {
      assert r[|r| - 1] == e[|e| - 1];
    }
    forall c | c in r ensures c in s {
      var k :| 0 <= k < |r| && r[k] == c;
      assert r[k] == e[|e| - |r| + k] == s[|e| - |r| + k];
    }
  }

  /** A string without blanks at either end is its own trim. */
  lemma JavaTrimUnchanged(s: string)
    requires s != [] && !IsJavaBlank(s[0]) && !IsJavaBlank(s[|s| - 1])
    ensures JavaTrim(s) == s
  {
    assert TrimEnd(s, IsJavaBlank) == s;
    assert TrimStart(s, IsJavaBlank) == s;
  }

  /** Every item is non-empty, has no blank at either end and holds no comma. */
  lemma ItemsAreClean(input: string, k: nat)
    requires k < |Items(input)|
    ensures var item := Items(input)[k];
      item != [] && !IsJavaBlank(item[0]) && !IsJavaBlank(item[|item| - 1]) && ',' !in item
  {
    var fields := Split(input, ',');
    var item := Items(input)[k];
    MapFilterMembers(fields, Kept, JavaTrim, item);
    var i :| 0 <= i < |fields| && Kept(fields[i]) && JavaTrim(fields[i]) == item;
    JavaTrimFacts(fields[i]);
    SplitFieldsLackSeparator(input, ',');
  }

  /** An item is returned exactly when some field trims to it. */
  lemma ItemsComeFromFields(input: string, item: string)
    ensures item in Items(input) <==>
      item != [] && exists i :: 0 <= i < |Split(input, ',')| && JavaTrim(Split(input, ',')[i]) == item
  {
    MapFilterMembers(Split(input, ','), Kept, JavaTrim, item);
  }

  /** Splitting the comma-join of trimmed, non-empty, comma-free items gives the items back. */
  lemma SplitJoinRoundTrip(items: seq<string>)
    requires |items| >= 1
    requires forall i :: 0 <= i < |items| ==>
      items[i] != [] && !IsJavaBlank(items[i][0]) && !IsJavaBlank(items[i][|items[i]| - 1]) && ',' !in items[i]
    ensures Items(Join(items, ",")) == items
  {
    SplitJoin(items, ',');
    assert Split(Join(items, ","), ',') == items;
    forall i | 0 <= i < |items| ensures Kept(items[i]) && JavaTrim(items[i]) == items[i] {
      JavaTrimUnchanged(items[i]);
    }
    MapFilterIdentity(items, Kept, JavaTrim);
  }
}
