/**
 The suffix helper the command uses to build its counted nouns
 ("plugin"/"plugins", "categor"+"y"/"ies").
 */
module Plurals {

  /** Python's `s.split(sep, 1)` for an `s` that contains `sep`: the text before
      the first `sep` and everything after it. */
  function SplitFirst(s: string, sep: char): (r: (string, string))
    requires sep in s
    ensures s == r.0 + [sep] + r.1
    ensures sep !in r.0
    decreases |s|
  {
    if s[0] == sep then
      ("", s[1..])
    else
      var rest := SplitFirst(s[1..], sep);
      assert s == [s[0]] + s[1..];
      ([s[0]] + rest.0, rest.1)
  }

  /** The plural suffix for `value`: nothing for exactly one, otherwise the text
      after the first comma of `arg`, or `arg` itself when it has no comma. */
  function Pluralize(value: int, arg: string := "s"): (r: string)
    ensures value == 1 ==> r == ""
    ensures value != 1 && ',' !in arg ==> r == arg
    ensures value != 1 && ',' in arg ==>
      exists i :: 0 <= i < |arg| && arg[i] == ',' && ',' !in arg[..i] && r == arg[i + 1..]
  {
    if value == 1 then
      ""
    else if ',' in arg then
      var parts := SplitFirst(arg, ',');
      assert arg[..|parts.0|] == parts.0;
      assert arg[|parts.0| + 1..] == parts.1;
      parts.1
    else
      arg
  }

  /** For every count other than one, a "singular,plural" argument yields exactly
      the plural part, even when that part holds further commas. */
  lemma {:induction false} PluralizeTakesTextAfterFirstComma(value: int, singular: string, plural: string)
    requires value != 1
    requires ',' !in singular
    ensures Pluralize(value, singular + "," + plural) == plural
  {
    var arg := singular + "," + plural;
    assert arg[|singular|] == ',';
    var i :| 0 <= i < |arg| && arg[i] == ',' && ',' !in arg[..i] && Pluralize(value, arg) == arg[i + 1..];
    assert arg[|singular| + 1..] == plural;
  }

  /** One of anything takes no suffix, whatever `arg` asks for: the irregular
      "y,ies" gives "" rather than "y". */
  lemma PluralizeOneIsEmpty(arg: string)
    ensures Pluralize(1, arg) == ""
  {
  }

  /** The default argument: "" for one, "s" for every other count (zero included). */
  lemma PluralizeDefault(value: int)
    ensures Pluralize(value) == (if value == 1 then "" else "s")
  {
  }

  /** The irregular noun the command uses for categories. */
  lemma PluralizeCategory(value: int)
    ensures Pluralize(value, "y,ies") == (if value == 1 then "" else "ies")
  {
    if value != 1 {
      PluralizeTakesTextAfterFirstComma(value, "y", "ies");
    }
  }

  /** Only the first comma splits: "a,b,c" gives "b,c". */
  lemma PluralizeKeepsLaterCommas(value: int)
    requires value != 1
    ensures Pluralize(value, "a,b,c") == "b,c"
  {
    PluralizeTakesTextAfterFirstComma(value, "a", "b,c");
  }
}
