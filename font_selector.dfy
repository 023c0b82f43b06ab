/**
 * The overlay's font picker (entrypoints/content/components/FontSelector.tsx):
 * ten Google Fonts, the CSS2 stylesheet URL that loads them all, and the
 * selection handler that stores the chosen CSS font value.
 */
module FontSelector {
  import opened ChromeStorage
  import Text

  datatype FontOption = FontOption(name: string, value: string)

  const GOOGLE_FONTS: seq<FontOption> := [
    FontOption("Rampart One", "'Rampart One', sans-serif"),
    FontOption("Open Sans", "'Open Sans', sans-serif"),
    FontOption("Noto Sans JP", "'Noto Sans JP', sans-serif"),
    FontOption("M PLUS 1p", "'M PLUS 1p', sans-serif"),
    FontOption("Kosugi Maru", "'Kosugi Maru', sans-serif"),
    FontOption("Sawarabi Gothic", "'Sawarabi Gothic', sans-serif"),
    FontOption("Sawarabi Mincho", "'Sawarabi Mincho', serif"),
    FontOption("Poppins", "'Poppins', sans-serif"),
    FontOption("Lato", "'Lato', sans-serif"),
    FontOption("Montserrat", "'Montserrat', sans-serif")
  ]

  const CSS2_ENDPOINT := "https://fonts.googleapis.com/css2"
  const FAMILY_PARAM := "family="
  const DISPLAY_PARAM := "display=swap"
  const SELECTED_FONT_KEY := "selectedFont"

  /**
   * The characters the `\s` class of a JavaScript regular expression matches:
   * the ECMAScript WhiteSpace and LineTerminator productions.
   */
  predicate IsJsWhitespace(c: char) {
    c == '\t' || c == '\n' || c == '\U{000B}' || c == '\U{000C}' || c == '\r' || c == ' ' ||
    c == '\U{00A0}' || c == '\U{1680}' || ('\U{2000}' <= c <= '\U{200A}') ||
    c == '\U{2028}' || c == '\U{2029}' || c == '\U{202F}' || c == '\U{205F}' ||
    c == '\U{3000}' || c == '\U{FEFF}'
  }

  predicate AllWhitespace(w: string) {
    forall i :: 0 <= i < |w| ==> IsJsWhitespace(w[i])
  }

  /** `s` without its leading run of whitespace. */
  function SkipWhitespace(s: string): (r: string)
    ensures |r| <= |s| && r == s[|s| - |r|..]
    ensures AllWhitespace(s[..|s| - |r|])
    ensures r != [] ==> !IsJsWhitespace(r[0])
  {
    if s != [] && IsJsWhitespace(s[0]) then
      var r := SkipWhitespace(s[1..]);
      assert s[..|s| - |r|] == [s[0]] + s[1..][..|s[1..]| - |r|];
      r
    else s
  }

  /** `s.replace(/\s+/g, '+')`: each maximal whitespace run becomes one `+`. */
  function FormatName(s: string): string
    decreases |s|
  {
    if s == [] then []
    else if IsJsWhitespace(s[0]) then "+" + FormatName(SkipWhitespace(s))
    else [s[0]] + FormatName(s[1..])
  }

  /** `s` with its whitespace characters deleted. */
  function NonWhitespace(s: string): (r: string)
    ensures forall c :: c in r ==> c in s && !IsJsWhitespace(c)
  {
    if s == [] then []
    else if IsJsWhitespace(s[0]) then NonWhitespace(s[1..])
    else [s[0]] + NonWhitespace(s[1..])
  }

  /** Every character of a formatted name is `+` or a non-whitespace character of the name. */
  lemma {:induction false} FormatNameChars(s: string)
    ensures forall c :: c in FormatName(s) ==> c == '+' || (c in s && !IsJsWhitespace(c))
    decreases |s|
  {
    if s != [] {
      if IsJsWhitespace(s[0]) {
        var r := SkipWhitespace(s);
        FormatNameChars(r);
        assert forall c :: c in r ==> c in s;
      } else {
        FormatNameChars(s[1..]);
      }
    }
  }

  /**
   * Deleting the `+` signs from a formatted name gives the name without its
   * whitespace and its own `+` signs: every other character keeps its order.
   */
  lemma {:induction false} FormatNameKeepsOrder(s: string)
    ensures Text.RemoveAll(FormatName(s), '+') == Text.RemoveAll(NonWhitespace(s), '+')
    decreases |s|
  {
    if s != [] {
      if IsJsWhitespace(s[0]) {
        var r := SkipWhitespace(s);
        FormatNameKeepsOrder(r);
        assert FormatName(s) == "+" + FormatName(r);
        Text.RemoveAllConcat("+", FormatName(r), '+');
        NonWhitespaceSkipsRun(s[..|s| - |r|], r);
        assert s[..|s| - |r|] + r == s;
        assert NonWhitespace(s) == NonWhitespace(r);
      } else {
        var u := s[1..];
        FormatNameKeepsOrder(u);
        assert FormatName(s) == [s[0]] + FormatName(u);
        assert NonWhitespace(s) == [s[0]] + NonWhitespace(u);
        Text.RemoveAllConcat([s[0]], FormatName(u), '+');
        Text.RemoveAllConcat([s[0]], NonWhitespace(u), '+');
      }
    }
  }

  /** For a `+`-free name, deleting the `+` signs leaves exactly its non-whitespace characters. */
  lemma PlusFreeKeepsOrder(s: string)
    requires '+' !in s
    ensures Text.RemoveAll(FormatName(s), '+') == NonWhitespace(s)
  {
    FormatNameKeepsOrder(s);
    Text.RemoveAllAbsent(NonWhitespace(s), '+');
  }

  lemma {:induction false} NonWhitespaceSkipsRun(w: string, rest: string)
    requires AllWhitespace(w)
    ensures NonWhitespace(w + rest) == NonWhitespace(rest)
  {
    if w == [] {
      assert w + rest == rest;
    } else {
      assert IsJsWhitespace((w + rest)[0]);
      assert (w + rest)[1..] == w[1..] + rest;
      NonWhitespaceSkipsRun(w[1..], rest);
    }
  }

  lemma {:induction false} SkipWhitespaceAppend(s: string, t: string)
    requires s != [] && !IsJsWhitespace(s[|s| - 1])
    ensures SkipWhitespace(s + t) == SkipWhitespace(s) + t
  {
    if IsJsWhitespace(s[0]) {
      assert |s| > 1;
      assert (s + t)[1..] == s[1..] + t;
      SkipWhitespaceAppend(s[1..], t);
    }
  }

  lemma {:induction false} SkipWhitespaceKeepsLast(s: string)
    requires s != [] && !IsJsWhitespace(s[|s| - 1])
    ensures SkipWhitespace(s) != [] && SkipWhitespace(s)[|SkipWhitespace(s)| - 1] == s[|s| - 1]
  {
    if IsJsWhitespace(s[0]) {
      SkipWhitespaceKeepsLast(s[1..]);
    }
  }

  /** Formatting works piecewise when the cut does not fall inside a whitespace run. */
  lemma {:induction false} FormatNameAppend(s: string, t: string)
    requires s == [] || !IsJsWhitespace(s[|s| - 1])
    ensures FormatName(s + t) == FormatName(s) + FormatName(t)
    decreases |s|
  {
    if s == [] {
      assert s + t == t;
    } else if IsJsWhitespace(s[0]) {
      SkipWhitespaceAppend(s, t);
      var r := SkipWhitespace(s);
      SkipWhitespaceKeepsLast(s);
      assert IsJsWhitespace((s + t)[0]);
      FormatNameAppend(r, t);
      Text.ConcatAssoc("+", FormatName(r), FormatName(t));
    } else {
      var u := s[1..];
      assert (s + t)[0] == s[0] && (s + t)[1..] == u + t;
      FormatNameAppend(u, t);
      Text.ConcatAssoc([s[0]], FormatName(u), FormatName(t));
    }
  }

  /** One maximal run `w` between `a` and `b` turns into exactly one `+`. */
  lemma FormatNameRun(a: string, w: string, b: string)
    requires a == [] || !IsJsWhitespace(a[|a| - 1])
    requires w != [] && AllWhitespace(w)
    requires b == [] || !IsJsWhitespace(b[0])
    ensures FormatName(a + w + b) == FormatName(a) + "+" + FormatName(b)
  {
    FormatNameAppend(a, w + b);
    FormatNameLeadingRun(w, b);
    Text.ConcatAssoc(a, w, b);
    Text.ConcatAssoc(FormatName(a), "+", FormatName(b));
  }

  lemma FormatNameLeadingRun(w: string, b: string)
    requires w != [] && AllWhitespace(w)
    requires b == [] || !IsJsWhitespace(b[0])
    ensures FormatName(w + b) == "+" + FormatName(b)
  {
    assert IsJsWhitespace((w + b)[0]);
    SkipRun(w, b);
  }

  lemma {:induction false} SkipRun(w: string, b: string)
    requires AllWhitespace(w)
    requires b == [] || !IsJsWhitespace(b[0])
    ensures SkipWhitespace(w + b) == b
  {
    if w == [] {
      assert w + b == b;
    } else {
      assert (w + b)[1..] == w[1..] + b;
      SkipRun(w[1..], b);
    }
  }

  /** A name without whitespace is left as it is. */
  lemma {:induction false} FormatNameNoWhitespace(s: string)
    requires forall i :: 0 <= i < |s| ==> !IsJsWhitespace(s[i])
    ensures FormatName(s) == s
  {
    if s != [] {
      FormatNameNoWhitespace(s[1..]);
    }
  }

  /** `GOOGLE_FONTS.map(font => font.name.replace(/\s+/g, '+'))`. */
  function FontFamilies(fonts: seq<FontOption>): (r: seq<string>)
    ensures |r| == |fonts|
    ensures forall i :: 0 <= i < |fonts| ==> r[i] == FormatName(fonts[i].name)
  {
    seq(|fonts|, i requires 0 <= i < |fonts| => FormatName(fonts[i].name))
  }

  /** The stylesheet href `loadFonts` builds from the formatted family names. */
  function FontsHref(families: seq<string>): string {
    CSS2_ENDPOINT + "?" + FAMILY_PARAM + Text.Join(families, "&" + FAMILY_PARAM) + "&" + DISPLAY_PARAM
  }

  /** The query parameters: one `family=` per family, in order, then `display=swap`. */
  function QueryParams(families: seq<string>): (ps: seq<string>)
    ensures |ps| == |families| + 1 && ps[|families|] == DISPLAY_PARAM
    ensures forall i :: 0 <= i < |families| ==> ps[i] == FAMILY_PARAM + families[i]
  {
    seq(|families|, i requires 0 <= i < |families| => FAMILY_PARAM + families[i]) + [DISPLAY_PARAM]
  }

  lemma {:induction false} JoinParams(families: seq<string>)
    requires |families| >= 1
    ensures FAMILY_PARAM + Text.Join(families, "&" + FAMILY_PARAM) + "&" + DISPLAY_PARAM
         == Text.Join(QueryParams(families), "&")
  {
    var ps := QueryParams(families);
    if |families| == 1 {
      assert ps[1..] == [DISPLAY_PARAM];
    } else {
      JoinParams(families[1..]);
      assert ps[1..] == QueryParams(families[1..]);
    }
  }

  /**
   * For a non-empty list of `&`-free families, the href is the CSS2 endpoint
   * with a query that splits on `&` into exactly the parameters above.
   */
  lemma FontsHrefQuery(families: seq<string>)
    requires |families| >= 1
    requires forall i :: 0 <= i < |families| ==> '&' !in families[i]
    ensures FontsHref(families) == CSS2_ENDPOINT + "?" + Text.Join(QueryParams(families), "&")
    ensures Text.Split(Text.Join(QueryParams(families), "&"), '&') == QueryParams(families)
  {
    JoinParams(families);
    var ps := QueryParams(families);
    forall i | 0 <= i < |ps| ensures '&' !in ps[i] {
      if i < |families| {
        assert ps[i] == FAMILY_PARAM + families[i];
      }
    }
    Text.SplitJoin(ps, '&');
  }

  /** The list holds ten fonts with pairwise distinct names. */
  lemma GoogleFontNamesDistinct()
    ensures |GOOGLE_FONTS| == 10
    ensures forall i, j :: 0 <= i < j < |GOOGLE_FONTS| ==> GOOGLE_FONTS[i].name != GOOGLE_FONTS[j].name
  {
  }

  /** No font name contains `&`, so none can break the query apart. */
  lemma GoogleFontNamesPlain()
    ensures forall i :: 0 <= i < |GOOGLE_FONTS| ==> '&' !in GOOGLE_FONTS[i].name
  {
    forall i | 0 <= i < |GOOGLE_FONTS| ensures '&' !in GOOGLE_FONTS[i].name {
      var name := GOOGLE_FONTS[i].name;
      assert forall k :: 0 <= k < |name| ==> name[k] != '&';
    }
  }

  /** The href `loadFonts` requests names all ten fonts, one `family=` parameter each, in list order. */
  lemma LoadFontsHref()
    ensures var families := FontFamilies(GOOGLE_FONTS);
      var ps := Text.Split(Text.Join(QueryParams(families), "&"), '&');
      && FontsHref(families) == CSS2_ENDPOINT + "?" + Text.Join(QueryParams(families), "&")
      && |ps| == 11 && ps[10] == DISPLAY_PARAM
      && forall i :: 0 <= i < 10 ==> ps[i] == FAMILY_PARAM + FormatName(GOOGLE_FONTS[i].name)
  {
    GoogleFontNamesDistinct();
    GoogleFontNamesPlain();
    var families := FontFamilies(GOOGLE_FONTS);
    forall i | 0 <= i < |families| ensures '&' !in families[i] {
      FormatNameChars(GOOGLE_FONTS[i].name);
    }
    FontsHrefQuery(families);
  }

  /** `handleFontChange`: hands the chosen value to `onFontChange` and stores it. */
  method HandleFontChange(storage: LocalArea, selectedFont: string) returns (notified: string)
    modifies storage
    ensures notified == selectedFont
    ensures storage.entries == old(storage.entries)[SELECTED_FONT_KEY := Str(selectedFont)]
  {
    notified := selectedFont;
    storage.Set(SELECTED_FONT_KEY, Str(selectedFont));
  }
}
