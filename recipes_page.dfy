/**
 * The recipe browser's state (app/recipes/page.tsx): the list of all tags
 * offered for filtering, the selected tags, and the search text.
 * Strings are ordered as `Array.prototype.sort` orders them by default,
 * character by character.
 */
module RecipesPage {
  import opened Types
  import opened Seqs

  // ---------------------------------------------------------------------
  // The default string order
  // ---------------------------------------------------------------------

  /** `a` sorts strictly before `b`: a proper prefix, or smaller at the first difference. */
  predicate StrLess(a: string, b: string)
  {
    if a == [] then b != []
    else if b == [] then false
    else if a[0] != b[0] then a[0] < b[0]
    else StrLess(a[1..], b[1..])
  }

  lemma {:induction false} StrLessIrreflexive(a: string)
    ensures !StrLess(a, a)
  {
    if a != [] {
      StrLessIrreflexive(a[1..]);
    }
  }

  lemma {:induction false} StrLessTransitive(a: string, b: string, c: string)
    requires StrLess(a, b) && StrLess(b, c)
    ensures StrLess(a, c)
  {
    if a != [] && b != [] && c != [] && a[0] == b[0] && b[0] == c[0] {
      StrLessTransitive(a[1..], b[1..], c[1..]);
    }
  }

  lemma {:induction false} StrLessTotal(a: string, b: string)
    requires a != b
    ensures StrLess(a, b) || StrLess(b, a)
  {
    if a != [] && b != [] && a[0] == b[0] {
      assert a == [a[0]] + a[1..] && b == [b[0]] + b[1..];
      StrLessTotal(a[1..], b[1..]);
    }
  }

  /** Every element sorts strictly before every later one: sorted and free of duplicates. */
  predicate StrictlySorted(s: seq<string>)
  {
    forall i, j :: 0 <= i < j < |s| ==> StrLess(s[i], s[j])
  }

  /** Puts `x` before the first element it sorts before. */
  function InsertString(x: string, s: seq<string>): (r: seq<string>)
    ensures |r| == |s| + 1
    ensures forall y :: y in r <==> y == x || y in s
  {
    if s == [] then [x]
    else if StrLess(x, s[0]) then [x] + s
    else [s[0]] + InsertString(x, s[1..])
  }

  lemma {:induction false} InsertStringSorted(x: string, s: seq<string>)
    requires StrictlySorted(s) && x !in s
    ensures StrictlySorted(InsertString(x, s))
  {
    if s == [] {
    } else if StrLess(x, s[0]) {
      var r := [x] + s;
      forall i, j | 0 <= i < j < |r| ensures StrLess(r[i], r[j]) {
        if i == 0 && j > 1 {
          StrLessTransitive(x, s[0], s[j - 1]);
        }
      }
    } else {
      StrLessTotal(x, s[0]);
      var t := s[1..];
      assert StrictlySorted(t) by {
        forall i, j | 0 <= i < j < |t| ensures StrLess(t[i], t[j]) {
          assert t[i] == s[i + 1] && t[j] == s[j + 1];
        }
      }
      InsertStringSorted(x, t);
      var rest := InsertString(x, t);
      var r := [s[0]] + rest;
      forall i, j | 0 <= i < j < |r| ensures StrLess(r[i], r[j]) {
        if i == 0 {
          assert r[j] in rest;
          if r[j] != x {
            var k :| 0 <= k < |t| && t[k] == r[j];
            assert s[k + 1] == r[j];
          }
        } else {
          assert r[i] == rest[i - 1] && r[j] == rest[j - 1];
        }
      }
    }
  }

  /** `.sort()` on distinct strings: the same strings, in strictly increasing order. */
  function SortStrings(s: seq<string>): (r: seq<string>)
    ensures |r| == |s|
    ensures forall y :: y in r <==> y in s
    ensures NoDuplicates(s) ==> StrictlySorted(r)
  {
    if s == [] then []
    else
      var init := s[..|s| - 1];
      var last := s[|s| - 1];
      assert s == init + [last];
      var sorted := SortStrings(init);
      if NoDuplicates(s) then
        assert NoDuplicates(init) by {
          forall i, j | 0 <= i < j < |init| ensures init[i] != init[j] {
            assert init[i] == s[i] && init[j] == s[j];
          }
        }
        assert last !in init by {
          forall k | 0 <= k < |init| ensures init[k] != last {
            assert init[k] == s[k];
          }
        }
        InsertStringSorted(last, sorted);
        InsertString(last, sorted)
      else
        InsertString(last, sorted)
  }

  // ---------------------------------------------------------------------
  // The page's state
  // ---------------------------------------------------------------------

  /** `recipes.flatMap(r => r.tags)` */
  function FlatTags(recipes: seq<Recipe>): (tags: seq<string>)
    ensures forall t :: t in tags <==> exists r :: r in recipes && t in r.tags
  {
    if recipes == [] then []
    else
      var rest := FlatTags(recipes[1..]);
      assert forall r :: r in recipes <==> r == recipes[0] || r in recipes[1..];
      recipes[0].tags + rest
  }

  /** `Array.from(new Set(recipes.flatMap(r => r.tags))).sort()`: every tag once, in order. */
  function AllTags(recipes: seq<Recipe>): (tags: seq<string>)
    ensures StrictlySorted(tags)
    ensures forall t :: t in tags <==> exists r :: r in recipes && t in r.tags
  {
    var distinct := Distinct(FlatTags(recipes));
    assert forall t :: t in distinct <==> t in FlatTags(recipes) by {
      forall t | t in FlatTags(recipes) ensures t in distinct {
        var i :| 0 <= i < |FlatTags(recipes)| && FlatTags(recipes)[i] == t;
      }
      forall t | t in distinct ensures t in FlatTags(recipes) {
        var i :| 0 <= i < |distinct| && distinct[i] == t;
      }
    }
    SortStrings(distinct)
  }

  /** The sorted tag list has no duplicates, so no tag is offered twice. */
  lemma AllTagsDistinct(recipes: seq<Recipe>)
    ensures NoDuplicates(AllTags(recipes))
  {
    var tags := AllTags(recipes);
    forall i, j | 0 <= i < j < |tags| ensures tags[i] != tags[j] {
      if tags[i] == tags[j] {
        StrLessIrreflexive(tags[i]);
      }
    }
  }

  function IsNot(tag: string): string -> bool
  {
    (t: string) => t != tag
  }

  /** `handleTagClick`: a selected tag is removed wherever it occurs; another is appended. */
  function HandleTagClick(selected: seq<string>, tag: string): (r: seq<string>)
    ensures tag !in selected ==> r == selected + [tag]
    ensures tag in selected ==> tag !in r && forall t :: t in r <==> t in selected && t != tag
    ensures tag in selected ==> forall t :: multiset(r)[t] == if t == tag then 0 else multiset(selected)[t]
    ensures tag in selected ==> IsSubsequence(r, selected)
  {
    if tag in selected then
      FilterMembers(selected, IsNot(tag));
      FilterMultiset(selected, IsNot(tag));
      FilterIsSubsequence(selected, IsNot(tag));
      Filter(selected, IsNot(tag))
    else selected + [tag]
  }

  /** Clicking a tag that is not selected twice gives back the selection. */
  lemma ClickTwiceRestores(selected: seq<string>, tag: string)
    requires tag !in selected
    ensures HandleTagClick(HandleTagClick(selected, tag), tag) == selected
  {
    FilterConcat(selected, [tag], IsNot(tag));
    FilterAll(selected, IsNot(tag));
    assert [tag][1..] == [];
  }

  /** A selection built by clicking keeps each tag at most once. */
  lemma ClickKeepsDistinct(selected: seq<string>, tag: string)
    requires NoDuplicates(selected)
    ensures NoDuplicates(HandleTagClick(selected, tag))
  {
    var r := HandleTagClick(selected, tag);
    if tag !in selected {
      forall i, j | 0 <= i < j < |r| ensures r[i] != r[j] {
        assert r[i] == selected[i];
        if j < |selected| {
          assert r[j] == selected[j];
        }
      }
    } else {
      FilterKeepsDistinct(selected, IsNot(tag));
    }
  }

  lemma {:induction false} FilterKeepsDistinct(s: seq<string>, p: string -> bool)
    requires NoDuplicates(s)
    ensures NoDuplicates(Filter(s, p))
  {
    if s != [] {
      assert NoDuplicates(s[1..]) by {
        forall i, j | 0 <= i < j < |s[1..]| ensures s[1..][i] != s[1..][j] {
          assert s[1..][i] == s[i + 1] && s[1..][j] == s[j + 1];
        }
      }
      FilterKeepsDistinct(s[1..], p);
      FilterMembers(s[1..], p);
      var rest := Filter(s[1..], p);
      assert s[0] !in s[1..] by {
        forall k | 0 <= k < |s[1..]| ensures s[1..][k] != s[0] {
          assert s[1..][k] == s[k + 1];
        }
      }
      if p(s[0]) {
        var r := [s[0]] + rest;
        forall i, j | 0 <= i < j < |r| ensures r[i] != r[j] {
          assert r[j] == rest[j - 1];
          if i > 0 {
            assert r[i] == rest[i - 1];
          }
        }
      }
    }
  }

  /** The search text and the selected tags. */
  datatype Filters = Filters(searchTerm: string, selectedTags: seq<string>)

  /** `clearFilters` */
  function ClearFilters(f: Filters): (r: Filters)
    ensures r.searchTerm == "" && r.selectedTags == []
  {
    Filters("", [])
  }

  /** After clearing, the selection holds exactly the distinct tags clicked since, in click order. */
  lemma {:induction false} ClicksAfterClear(f: Filters, clicks: seq<string>)
    requires NoDuplicates(clicks)
    ensures ClickAll(ClearFilters(f).selectedTags, clicks) == clicks
  {
    ClickAllFresh([], clicks);
  }

  /** The selection after clicking each tag in turn. */
  function ClickAll(selected: seq<string>, clicks: seq<string>): seq<string>
    decreases |clicks|
  {
    if clicks == [] then selected else ClickAll(HandleTagClick(selected, clicks[0]), clicks[1..])
  }

  lemma {:induction false} ClickAllFresh(selected: seq<string>, clicks: seq<string>)
    requires NoDuplicates(clicks)
    requires forall t :: t in clicks ==> t !in selected
    ensures ClickAll(selected, clicks) == selected + clicks
    decreases |clicks|
  {
    if clicks != [] {
      var next := selected + [clicks[0]];
      forall t | t in clicks[1..] ensures t !in next {
        var k :| 0 <= k < |clicks[1..]| && clicks[1..][k] == t;
        assert clicks[k + 1] == t;
      }
      assert NoDuplicates(clicks[1..]) by {
        forall i, j | 0 <= i < j < |clicks[1..]| ensures clicks[1..][i] != clicks[1..][j] {
          assert clicks[1..][i] == clicks[i + 1] && clicks[1..][j] == clicks[j + 1];
        }
      }
      assert clicks[0] in clicks;
      ClickAllFresh(next, clicks[1..]);
      assert next + clicks[1..] == selected + clicks;
    }
  }
}
