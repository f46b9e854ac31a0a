/** The weather-to-mood mapping: the primary weather category, lower-cased,
    looked up in a fixed five-entry table with a default. */
module Mood {
  import opened Types

  const DefaultMood: string := "chill mood"

  const MoodTable: map<string, string> := map[
    "clear" := "happy pop bright",
    "clouds" := "indie chill",
    "rain" := "lofi rainy chill",
    "snow" := "cozy acoustic",
    "thunderstorm" := "dark edm"
  ]

  predicate IsUpper(c: char) { 'A' <= c <= 'Z' }

  function LowerChar(c: char): char
  {
    if IsUpper(c) then (c as int - 'A' as int + 'a' as int) as char else c
  }

  /** Lower-casing of a category name (folds A-Z; other characters unchanged). */
  function ToLower(s: string): (r: string)
    ensures |r| == |s|
    ensures forall i :: 0 <= i < |s| ==> r[i] == LowerChar(s[i])
    ensures forall i :: 0 <= i < |r| ==> !IsUpper(r[i])
  {
    seq(|s|, i requires 0 <= i < |s| => LowerChar(s[i]))
  }

  /** Lower-casing twice is lower-casing once. */
  lemma ToLowerIdempotent(s: string)
    ensures ToLower(ToLower(s)) == ToLower(s)
  {
  }

  /** The mood keyword for a weather category. */
  function KeywordFor(main: string): (r: string)
    ensures ToLower(main) in MoodTable ==> r == MoodTable[ToLower(main)]
    ensures ToLower(main) !in MoodTable ==> r == DefaultMood
  {
    var key := ToLower(main);
    if key in MoodTable then MoodTable[key] else DefaultMood
  }

  /** The keyword of a weather reply, read from its first condition's
      category: the default exactly when that category is not in the table,
      one of the table's keywords otherwise. */
  function WeatherToKeyword(w: Weather): (r: string)
    requires |w.conditions| > 0
    ensures r == DefaultMood <==> ToLower(w.conditions[0].main) !in MoodTable
    ensures ToLower(w.conditions[0].main) in MoodTable ==> r in MoodTable.Values
  {
    DefaultExactlyWhenUnknown(w.conditions[0].main);
    KeywordFor(w.conditions[0].main)
  }

  /** The lookup ignores letter case: a category and its lower-cased form
      get the same keyword. */
  lemma KeywordIgnoresCase(main: string, other: string)
    requires ToLower(main) == ToLower(other)
    ensures KeywordFor(main) == KeywordFor(other)
    ensures KeywordFor(main) == KeywordFor(ToLower(main))
  {
    ToLowerIdempotent(main);
  }

  /** Each of the five known categories gets its fixed keyword, whatever its
      letter case. */
  lemma KnownCategories(main: string)
    ensures ToLower(main) == "clear" ==> KeywordFor(main) == "happy pop bright"
    ensures ToLower(main) == "clouds" ==> KeywordFor(main) == "indie chill"
    ensures ToLower(main) == "rain" ==> KeywordFor(main) == "lofi rainy chill"
    ensures ToLower(main) == "snow" ==> KeywordFor(main) == "cozy acoustic"
    ensures ToLower(main) == "thunderstorm" ==> KeywordFor(main) == "dark edm"
  {
  }

  /** The mapping is total and the default is told apart from every table
      keyword: the result is the default exactly when the category is not
      one of the five. */
  lemma DefaultExactlyWhenUnknown(main: string)
    ensures KeywordFor(main) == DefaultMood <==> ToLower(main) !in MoodTable
    ensures KeywordFor(main) in MoodTable.Values || KeywordFor(main) == DefaultMood
  {
    var key := ToLower(main);
    if key in MoodTable {
      assert MoodTable[key] in MoodTable.Values;
      assert DefaultMood !in MoodTable.Values;
    }
  }

  /** Distinct known categories give distinct keywords, so the keyword names
      the (lower-cased) category it came from. */
  lemma KeywordDeterminesCategory(a: string, b: string)
    requires ToLower(a) in MoodTable && ToLower(b) in MoodTable
    requires KeywordFor(a) == KeywordFor(b)
    ensures ToLower(a) == ToLower(b)
  {
  }

  /** Lower-casing a capitalised word only changes its first letter. */
  lemma LowerCapitalised(s: string)
    requires |s| > 0
    requires forall i :: 1 <= i < |s| ==> !IsUpper(s[i])
    ensures ToLower(s) == [LowerChar(s[0])] + s[1..]
  {
  }

  /** The five categories as the weather service spells them, capitalised. */
  lemma ServiceCategories()
    ensures KeywordFor("Clear") == "happy pop bright"
    ensures KeywordFor("Clouds") == "indie chill"
    ensures KeywordFor("Rain") == "lofi rainy chill"
    ensures KeywordFor("Snow") == "cozy acoustic"
    ensures KeywordFor("Thunderstorm") == "dark edm"
  {
    LowerCapitalised("Clear");
    assert ToLower("Clear") == "clear";
    LowerCapitalised("Clouds");
    assert ToLower("Clouds") == "clouds";
    LowerCapitalised("Rain");
    assert ToLower("Rain") == "rain";
    LowerCapitalised("Snow");
    assert ToLower("Snow") == "snow";
    LowerCapitalised("Thunderstorm");
    assert ToLower("Thunderstorm") == "thunderstorm";
  }

  /** Service categories outside the table fall back to the default. */
  lemma UnmappedServiceCategories()
    ensures KeywordFor("Drizzle") == DefaultMood
    ensures KeywordFor("Mist") == DefaultMood
  {
    LowerCapitalised("Drizzle");
    assert ToLower("Drizzle") == "drizzle";
    LowerCapitalised("Mist");
    assert ToLower("Mist") == "mist";
  }
}
