/**
  `formatMealName`, written identically in the log page and in the recent
  meals list: a hyphenated slug becomes space-separated words, each with an
  upper-case first letter.
 */
module MealNames {
  import opened Text

  const Hyphen: char := '-'
  const Space: char := ' '

  /** `.map(word => word.charAt(0).toUpperCase() + word.slice(1))`. */
  function CapitalizeAll(words: seq<string>): (r: seq<string>)
    ensures |r| == |words|
    ensures forall i :: 0 <= i < |words| ==> r[i] == Capitalize(words[i])
  {
    seq(|words|, i requires 0 <= i < |words| => Capitalize(words[i]))
  }

  /**
    The character at position `i` of the formatted name, read off the slug
    alone: a hyphen becomes a space, the first letter of each word is
    upper-cased, and every other character stays.
   */
  function FormattedAt(s: string, i: nat): char
    requires i < |s|
  {
    if s[i] == Hyphen then Space
    else if i == 0 || s[i - 1] == Hyphen then UpperChar(s[i])
    else s[i]
  }

  /** The slug as a meal name. */
  function FormatMealName(slug: string): (name: string)
    ensures |name| == |slug|
    ensures forall i :: 0 <= i < |slug| ==> name[i] == FormattedAt(slug, i)
    ensures Hyphen !in name
  {
    var words := Split(slug, Hyphen);
    var name := Join(CapitalizeAll(words), Space);
    JoinSplit(slug, Hyphen);
    FormatJoined(words);
    assert forall i :: 0 <= i < |name| ==> name[i] != Hyphen;
    name
  }

  /** Formatting hyphen-free words and joining with spaces reads like `FormattedAt` over their hyphen join. */
  lemma {:induction false} FormatJoined(words: seq<string>)
    requires |words| >= 1
    requires forall k :: 0 <= k < |words| ==> Hyphen !in words[k]
    ensures var s, name := Join(words, Hyphen), Join(CapitalizeAll(words), Space);
            |name| == |s| && forall i :: 0 <= i < |s| ==> name[i] == FormattedAt(s, i)
    decreases |words|
  {
    var w := words[0];
    var s, name := Join(words, Hyphen), Join(CapitalizeAll(words), Space);
    if |words| == 1 {
      forall i | 0 <= i < |s| ensures name[i] == FormattedAt(s, i) {
        assert s[i] in w;
        if i > 0 {
          assert s[i - 1] in w;
        }
      }
    } else {
      var rest := words[1..];
      FormatJoined(rest);
      var s', name' := Join(rest, Hyphen), Join(CapitalizeAll(rest), Space);
      assert CapitalizeAll(words)[1..] == CapitalizeAll(rest);
      assert s == w + [Hyphen] + s';
      assert name == Capitalize(w) + [Space] + name';
      forall i | 0 <= i < |s| ensures name[i] == FormattedAt(s, i) {
        if i < |w| {
          assert s[i] == w[i] && s[i] in w;
          if i > 0 {
            assert s[i - 1] == w[i - 1] && s[i - 1] in w;
          }
        } else if i > |w| {
          var k := i - |w| - 1;
          assert s[i] == s'[k] && name[i] == name'[k];
          if k > 0 {
            assert s[i - 1] == s'[k - 1];
          }
        }
      }
    }
  }

  /** A slug without hyphens is one word: only its first letter changes. */
  lemma {:induction false} SingleWord(slug: string)
    requires Hyphen !in slug
    ensures FormatMealName(slug) == Capitalize(slug)
  {
    var name := FormatMealName(slug);
    var c := Capitalize(slug);
    forall i | 0 <= i < |slug| ensures name[i] == c[i] {
      if i > 0 {
        assert slug[i - 1] in slug;
        assert c[i] == c[1..][i - 1];
      }
    }
  }
}
