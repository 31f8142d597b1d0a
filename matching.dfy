/**
 * Pattern matching used by auto-pickup rules: the `*` wildcard match against an item name,
 * case-insensitive substring search, comma splitting, and the material filter syntax
 * `m:<list>` (any material matches) and `M:<list>` (every material matches).
 *
 * Case folding is ASCII only: upper-case letters A-Z fold to a-z, every other character is
 * left as it is.
 */
module Matching {

  function LowerChar(c: char): (r: char)
    ensures ('A' <= c <= 'Z') == (r != c)
    ensures r != '*' || c == '*'
  {
    if 'A' <= c <= 'Z' then (c as int + 32) as char else c
  }

  function Lower(s: string): (r: string)
    ensures |r| == |s|
    ensures forall i :: 0 <= i < |s| ==> r[i] == LowerChar(s[i])
  {
    if s == [] then [] else [LowerChar(s[0])] + Lower(s[1..])
  }

  /** Glob matching where `*` matches any run of characters (the empty run included) and
    * every other character matches itself ignoring case. */
  function GlobMatch(text: string, pattern: string): bool
    decreases |text| + |pattern|
  {
    if pattern == [] then text == []
    else if pattern[0] == '*' then
      GlobMatch(text, pattern[1..]) || (text != [] && GlobMatch(text[1..], pattern))
    else
      text != [] && LowerChar(text[0]) == LowerChar(pattern[0]) && GlobMatch(text[1..], pattern[1..])
  }

  /** Reference definition of `wildcard_match`: an empty pattern matches nothing. */
  predicate WildcardMatch(text: string, pattern: string)
  {
    pattern != [] && GlobMatch(text, pattern)
  }

  /** Reference definition of `ci_find_substr(s, sub) != -1` (and of `lcmatch(s, sub)`):
    * `sub` occurs in `s` when both are case-folded. */
  predicate CiContains(s: string, sub: string)
  {
    exists i :: 0 <= i <= |s| - |sub| && CiMatchAt(s, sub, i)
  }

  /** `sub` occurs in `s` at position `i`, ignoring case. */
  predicate CiMatchAt(s: string, sub: string, i: int)
    requires 0 <= i <= |s| - |sub|
  {
    Lower(s[i..i + |sub|]) == Lower(sub)
  }

  /** Splits on every occurrence of `d`; always at least one piece. */
  function SplitPieces(s: string, d: char): (r: seq<string>)
    ensures |r| >= 1
    decreases |s|
  {
    if s == [] then [[]]
    else
      var rest := SplitPieces(s[1..], d);
      if s[0] == d then [[]] + rest else [[s[0]] + rest[0]] + rest[1..]
  }

  /** Reference definition of `string_split`: an empty string has no pieces; otherwise the
    * pieces between delimiters, empty pieces included. */
  function StringSplit(s: string, d: char): seq<string>
  {
    if s == [] then [] else SplitPieces(s, d)
  }

  /** Whether some filter of the list matches material `mat` (the inner `any_of`). */
  predicate AnyFilterMatches(mat: string, filter: seq<string>)
  {
    exists f :: f in filter && CiContains(mat, f)
  }

  /** `check_special_rule`. A rule shorter than two characters has no type character and
    * is not special (the source reads `rule[1]` without checking the length). */
  function SpecialRule(materials: set<string>, rule: string): (b: bool)
    ensures b ==> |rule| >= 2 && rule[1] == ':' && StringSplit(rule[2..], ',') != [] && materials != {}
    ensures b ==> rule[0] == 'm' || rule[0] == 'M'
  {
    var isTyped := |rule| >= 2 && rule[1] == ':';
    var filter := if isTyped then StringSplit(rule[2..], ',') else [];
    if filter == [] || materials == {} then false
    else if rule[0] == 'm' then
      exists mat :: mat in materials && AnyFilterMatches(mat, filter)
    else if rule[0] == 'M' then
      forall mat :: mat in materials ==> AnyFilterMatches(mat, filter)
    else false
  }

  /** On an item made of one material, `m:<list>` and `M:<list>` select the same. */
  lemma SingleMaterialAgrees(mat: string, list: string)
    ensures SpecialRule({mat}, "m:" + list) == SpecialRule({mat}, "M:" + list)
  {
    var any, all := "m:" + list, "M:" + list;
    assert any[2..] == list && all[2..] == list;
    assert any[0] == 'm' && any[1] == ':' && all[0] == 'M' && all[1] == ':';
  }

  /** More materials can only help `m:`: an item that matches keeps matching when it is made
    * of more. */
  lemma AnyOfGrowsWithMaterials(materials: set<string>, more: set<string>, list: string)
    requires SpecialRule(materials, "m:" + list)
    ensures SpecialRule(materials + more, "m:" + list)
  {
    var any := "m:" + list;
    assert any[2..] == list && any[0] == 'm' && any[1] == ':';
    var mat :| mat in materials && AnyFilterMatches(mat, StringSplit(list, ','));
    assert mat in materials + more;
  }

  /** Fewer materials can only help `M:`: an item that matches keeps matching when some of
    * its materials are dropped, as long as one is left. */
  lemma AllOfShrinksWithMaterials(materials: set<string>, fewer: set<string>, list: string)
    requires SpecialRule(materials, "M:" + list)
    requires fewer <= materials && fewer != {}
    ensures SpecialRule(fewer, "M:" + list)
  {
    var all := "M:" + list;
    assert all[2..] == list && all[0] == 'M' && all[1] == ':';
  }

  /** The effective match of a rule against an item: material filter OR wildcard on the name. */
  predicate RuleMatches(materials: set<string>, name: string, rule: string)
  {
    SpecialRule(materials, rule) || WildcardMatch(name, rule)
  }

  // ---------------------------------------------------------------------------------------
  // Properties of the wildcard match

  /** A pattern made of `*` alone matches every name. */
  lemma {:induction false} StarMatchesAll(text: string)
    ensures WildcardMatch(text, "*")
    decreases |text|
  {
    if text != [] {
      StarMatchesAll(text[1..]);
    }
  }

  /** A `*` can absorb the first character of the text. */
  lemma {:induction false} StarAbsorbs(text: string, pattern: string)
    requires text != [] && GlobMatch(text[1..], pattern)
    ensures GlobMatch(text, ['*'] + pattern)
  {
    var p := ['*'] + pattern;
    assert p[1..] == pattern;
    StarSkips(text[1..], pattern);
  }

  /** A `*` may match the empty run. */
  lemma StarSkips(text: string, pattern: string)
    requires GlobMatch(text, pattern)
    ensures GlobMatch(text, ['*'] + pattern)
  {
    assert (['*'] + pattern)[1..] == pattern;
  }

  /** Every non-empty name matches itself as a pattern, so a rule written from an item's
    * name always applies to that item. */
  lemma {:induction false} SelfMatch(text: string)
    requires text != []
    ensures WildcardMatch(text, text)
  {
    GlobSelf(text);
  }

  lemma {:induction false} GlobSelf(text: string)
    ensures GlobMatch(text, text)
    decreases |text|
  {
    if text != [] {
      GlobSelf(text[1..]);
      if text[0] == '*' {
        assert text == ['*'] + text[1..];
        StarAbsorbs(text, text[1..]);
      }
    }
  }

  /** `*rrow` matches every name ending with `rrow`. */
  lemma {:induction false} StarSuffix(a: string, s: string)
    ensures GlobMatch(a + s, ['*'] + s)
    decreases |a|
  {
    if a == [] {
      assert a + s == s;
      GlobSelf(s);
      StarSkips(s, s);
    } else {
      assert (a + s)[1..] == a[1..] + s;
      StarSuffix(a[1..], s);
    }
  }

  /** `wooden ar*` matches every name beginning with `wooden ar`. */
  lemma {:induction false} StarPrefix(s: string, a: string)
    ensures GlobMatch(s + a, s + ['*'])
    decreases |s|
  {
    if s == [] {
      assert s + a == a && s + ['*'] == "*";
      StarMatchesAll(a);
    } else {
      assert (s + a)[1..] == s[1..] + a;
      assert (s + ['*'])[1..] == s[1..] + ['*'];
      StarPrefix(s[1..], a);
      if s[0] == '*' {
        assert s + ['*'] == ['*'] + (s[1..] + ['*']);
        StarAbsorbs(s + a, s[1..] + ['*']);
      }
    }
  }

  /** A pattern without `*` matches exactly the names equal to it ignoring case. */
  lemma {:induction false} LiteralPattern(text: string, pattern: string)
    requires '*' !in pattern
    ensures GlobMatch(text, pattern) <==> Lower(text) == Lower(pattern)
    decreases |pattern|
  {
    if pattern == [] {
    } else if text == [] {
      assert Lower(pattern)[0] == LowerChar(pattern[0]);
    } else {
      assert '*' !in pattern[1..] by {
        forall k | 0 <= k < |pattern[1..]| ensures pattern[1..][k] != '*' {
          assert pattern[1..][k] == pattern[k + 1];
        }
      }
      LiteralPattern(text[1..], pattern[1..]);
      assert Lower(text) == [LowerChar(text[0])] + Lower(text[1..]);
      assert Lower(pattern) == [LowerChar(pattern[0])] + Lower(pattern[1..]);
    }
  }

  /** Matching ignores the case of the name. */
  lemma {:induction false} GlobIgnoresTextCase(text: string, pattern: string)
    ensures GlobMatch(Lower(text), pattern) == GlobMatch(text, pattern)
    decreases |text| + |pattern|
  {
    var lt := Lower(text);
    if pattern == [] {
    } else if pattern[0] == '*' {
      GlobIgnoresTextCase(text, pattern[1..]);
      if text != [] {
        assert lt[1..] == Lower(text[1..]);
        GlobIgnoresTextCase(text[1..], pattern);
      }
    } else if text != [] {
      assert lt[1..] == Lower(text[1..]);
      assert LowerChar(lt[0]) == LowerChar(text[0]);
      GlobIgnoresTextCase(text[1..], pattern[1..]);
    }
  }

  // ---------------------------------------------------------------------------------------
  // Properties of the substring search and of the material filters

  /** `name.length() == rule.length() && ci_find_substr(name, rule) != -1` is case-insensitive
    * equality. */
  lemma EqualLengthContains(s: string, sub: string)
    requires |s| == |sub|
    ensures CiContains(s, sub) <==> Lower(s) == Lower(sub)
  {
    assert s[0..|sub|] == s;
    if Lower(s) == Lower(sub) {
      assert CiMatchAt(s, sub, 0);
    }
    if CiContains(s, sub) {
      var i :| 0 <= i <= |s| - |sub| && CiMatchAt(s, sub, i);
      assert i == 0;
    }
  }

  /** A list written without commas is one filter. */
  lemma {:induction false} SplitWithoutDelimiter(s: string, d: char)
    requires d !in s
    ensures SplitPieces(s, d) == [s]
    decreases |s|
  {
    if s != [] {
      assert d !in s[1..] by {
        forall k | 0 <= k < |s[1..]| ensures s[1..][k] != d {
          assert s[1..][k] == s[k + 1];
        }
      }
      SplitWithoutDelimiter(s[1..], d);
      assert [s[0]] + s[1..] == s;
    }
  }

  /** Filtering with `M:` is stricter than with `m:`: on an item with materials, every
    * material matching the list implies some material matches it. */
  lemma AllOfImpliesAnyOf(materials: set<string>, list: string)
    requires SpecialRule(materials, "M:" + list)
    ensures SpecialRule(materials, "m:" + list)
  {
    var all, any := "M:" + list, "m:" + list;
    assert all[2..] == list && any[2..] == list;
    assert all[0] == 'M' && all[1] == ':' && any[0] == 'm' && any[1] == ':';
    var mat :| mat in materials;
    assert AnyFilterMatches(mat, StringSplit(list, ','));
  }

  /** `lcmatch("copper", "copper")`. */
  lemma CopperContainsCopper()
    ensures CiContains("copper", "copper")
  {
    assert "copper"[0..6] == "copper";
    assert CiMatchAt("copper", "copper", 0);
  }

  /** The filter list of `M:copper` is the single filter `copper`. */
  lemma CopperFilter()
    ensures StringSplit("M:copper"[2..], ',') == ["copper"]
  {
    assert "M:copper"[2..] == "copper";
    SplitWithoutDelimiter("copper", ',');
  }

  /** The filter `copper` matches the material "copper". */
  lemma CopperIsCopper()
    ensures AnyFilterMatches("copper", ["copper"]) && AnyFilterMatches("copper", ["steel", "copper"])
  {
    CopperContainsCopper();
    assert "copper" in ["copper"] && "copper" in ["steel", "copper"];
  }

  /** An item made purely of copper is matched by `M:copper`. */
  lemma PureCopperAllOf()
    ensures SpecialRule({"copper"}, "M:copper")
  {
    CopperFilter();
    CopperIsCopper();
  }

  /** An item made of copper is matched by `m:steel,copper`. */
  lemma CopperAnyOf()
    ensures SpecialRule({"copper"}, "m:steel,copper")
  {
    assert "m:steel,copper"[2..] == "steel,copper";
    SplitSteelCopper();
    CopperIsCopper();
  }

  /** An item made of copper and tin is not matched by `M:copper`: tin matches no filter. */
  lemma CopperTinNotAllOf()
    ensures !SpecialRule({"copper", "tin"}, "M:copper")
  {
    CopperFilter();
    TinIsNotCopper();
    assert "tin" in {"copper", "tin"};
  }

  /** No filter of the list `copper` matches the material "tin". */
  lemma TinIsNotCopper()
    ensures !AnyFilterMatches("tin", ["copper"])
  {
    assert |"tin"| - |"copper"| < 0;
    assert !CiContains("tin", "copper");
  }

  lemma SplitSteelCopper()
    ensures SplitPieces("steel,copper", ',') == ["steel", "copper"]
  {
    var steel, copper := "steel", "copper";
    assert steel + [','] + copper == "steel,copper" by {
      assert |steel + [','] + copper| == 12;
    }
    SplitAtFirstDelimiter(steel, ',', copper);
    SplitWithoutDelimiter(copper, ',');
  }

  /** The first piece runs up to the first delimiter. */
  lemma {:induction false} SplitAtFirstDelimiter(a: string, d: char, b: string)
    requires d !in a
    ensures SplitPieces(a + [d] + b, d) == [a] + SplitPieces(b, d)
    decreases |a|
  {
    var s := a + [d] + b;
    if a == [] {
      assert s[1..] == b;
    } else {
      assert d !in a[1..] by {
        forall k | 0 <= k < |a[1..]| ensures a[1..][k] != d {
          assert a[1..][k] == a[k + 1];
        }
      }
      SplitAtFirstDelimiter(a[1..], d, b);
      assert s[1..] == a[1..] + [d] + b;
      assert [a[0]] + a[1..] == a;
    }
  }
}
