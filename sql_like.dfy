/** SQLite's `LIKE` operator as the cache's title search uses it
    (`title LIKE '%' || query || '%'`), and how it relates to the remote
    catalogue's `title.toLowerCase().includes(query.toLowerCase())`. */
module SqlLike {
  import opened Strings

  /** Characters compared by LIKE: equal up to ASCII case. */
  predicate FoldEq(a: char, b: char) {
    LowerChar(a) == LowerChar(b)
  }

  /** `s LIKE p` under SQLite's defaults: `%` matches any run of characters,
      `_` exactly one, every other pattern character itself up to ASCII case;
      there is no escape character. */
  predicate Like(s: string, p: string)
    decreases |s| + |p|
  {
    if p == [] then s == []
    else if p[0] == '%' then Like(s, p[1..]) || (s != [] && Like(s[1..], p))
    else s != [] && (p[0] == '_' || FoldEq(s[0], p[0])) && Like(s[1..], p[1..])
  }

  /** The cache's search condition for a non-empty query. */
  predicate TitleLike(title: string, query: string) {
    Like(title, ['%'] + query + ['%'])
  }

  predicate WildcardFree(q: string) {
    forall i :: 0 <= i < |q| ==> q[i] != '%' && q[i] != '_'
  }

  /** q matches the beginning of s character by character, up to ASCII case. */
  predicate FoldPrefix(s: string, q: string) {
    |q| <= |s| && forall i :: 0 <= i < |q| ==> FoldEq(s[i], q[i])
  }

  lemma {:induction false} LikePercent(s: string)
    ensures Like(s, ['%'])
  {
    if s != [] {
      LikePercent(s[1..]);
    }
  }

  lemma {:induction false} LikePrefix(s: string, q: string)
    requires WildcardFree(q)
    ensures Like(s, q + ['%']) <==> FoldPrefix(s, q)
    decreases |q|
  {
    if q == [] {
      assert q + ['%'] == ['%'];
      LikePercent(s);
    } else {
      var p := q + ['%'];
      assert p[0] == q[0] && p[1..] == q[1..] + ['%'];
      assert q[0] != '%' && q[0] != '_';
      if s == [] {
        assert !Like(s, p);
      } else {
        LikePrefix(s[1..], q[1..]);
        assert FoldPrefix(s, q) <==> FoldEq(s[0], q[0]) && FoldPrefix(s[1..], q[1..]) by {
          if FoldEq(s[0], q[0]) && FoldPrefix(s[1..], q[1..]) {
            forall i | 0 <= i < |q| ensures FoldEq(s[i], q[i]) {
              if i > 0 {
                assert s[1..][i - 1] == s[i] && q[1..][i - 1] == q[i];
              }
            }
          }
        }
      }
    }
  }

  /** A leading `%` lets the rest of the pattern match any suffix. */
  lemma {:induction false} LikeLeadingPercent(s: string, r: string)
    ensures Like(s, ['%'] + r) <==> exists i :: 0 <= i <= |s| && Like(s[i..], r)
    decreases |s|
  {
    var p := ['%'] + r;
    assert p[0] == '%' && p[1..] == r;
    if s == [] {
      assert Like(s, p) <==> Like(s, r);
      if Like(s, r) {
        assert s[0..] == s;
      }
    } else {
      LikeLeadingPercent(s[1..], r);
      if Like(s, p) {
        if Like(s, r) {
          assert s[0..] == s;
        } else {
          var j :| 0 <= j <= |s[1..]| && Like(s[1..][j..], r);
          assert s[1..][j..] == s[j + 1..];
        }
      }
      if exists i :: 0 <= i <= |s| && Like(s[i..], r) {
        var i :| 0 <= i <= |s| && Like(s[i..], r);
        if i == 0 {
          assert s[0..] == s;
        } else {
          assert s[1..][i - 1..] == s[i..];
        }
      }
    }
  }

  /** For a query without `%` or `_`, the cache's LIKE search and the remote's
      lower-cased `includes` select the same titles. */
  lemma LikeAgreesWithIncludes(title: string, query: string)
    requires WildcardFree(query)
    ensures TitleLike(title, query) <==> Includes(Lower(title), Lower(query))
  {
    var r := query + ['%'];
    assert ['%'] + query + ['%'] == ['%'] + r;
    LikeLeadingPercent(title, r);
    var lt, lq := Lower(title), Lower(query);
    if TitleLike(title, query) {
      var i :| 0 <= i <= |title| && Like(title[i..], r);
      LikePrefix(title[i..], query);
      FoldPrefixIffOccurs(title, query, i);
    }
    if Includes(lt, lq) {
      var i :| 0 <= i <= |lt| - |lq| && OccursAt(lt, lq, i);
      FoldPrefixIffOccurs(title, query, i);
      LikePrefix(title[i..], query);
    }
  }

  /** The query matches the title at position i up to ASCII case exactly when
      the lower-cased query occurs there in the lower-cased title. */
  lemma FoldPrefixIffOccurs(title: string, query: string, i: int)
    requires 0 <= i <= |title|
    ensures FoldPrefix(title[i..], query) <==> OccursAt(Lower(title), Lower(query), i)
  {
    var lt, lq := Lower(title), Lower(query);
    if FoldPrefix(title[i..], query) {
      assert lt[i..i + |lq|] == lq by {
        forall k | 0 <= k < |lq| ensures lt[i..i + |lq|][k] == lq[k] {
          assert FoldEq(title[i..][k], query[k]);
        }
      }
    }
    if OccursAt(lt, lq, i) {
      forall k | 0 <= k < |query| ensures FoldEq(title[i..][k], query[k]) {
        assert lt[i..i + |lq|][k] == lq[k];
      }
    }
  }

  /** With an underscore in the query the two searches part ways: the cache
      finds every non-empty title for the query "_", the remote only the
      titles that contain an underscore. */
  lemma UnderscoreQueryDiffers(title: string)
    ensures TitleLike(title, "_") <==> title != []
    ensures Includes(Lower(title), Lower("_")) <==> '_' in title
  {
    var r := "_" + ['%'];
    assert ['%'] + "_" + ['%'] == ['%'] + r;
    LikeLeadingPercent(title, r);
    if title != [] {
      LikeUnderscorePercent(title);
      assert title[0..] == title;
    }
    if TitleLike(title, "_") {
      var i :| 0 <= i <= |title| && Like(title[i..], r);
      LikeUnderscorePercent(title[i..]);
    }
    var lt := Lower(title);
    assert Lower("_") == "_";
    if Includes(lt, "_") {
      var i :| 0 <= i <= |lt| - 1 && OccursAt(lt, "_", i);
      assert lt[i] == lt[i..i + 1][0] == '_';
      assert title[i] == '_';
    }
    if '_' in title {
      var i :| 0 <= i < |title| && title[i] == '_';
      assert lt[i..i + 1] == "_";
      assert OccursAt(lt, "_", i);
    }
  }

  /** `_%` matches exactly the non-empty strings. */
  lemma LikeUnderscorePercent(s: string)
    ensures Like(s, "_%") <==> s != []
  {
    var p := "_%";
    assert p[0] == '_' && p[1..] == ['%'];
    if s != [] {
      LikePercent(s[1..]);
    }
  }
}
