/** Ordering of post listings: the sort field named by `sortBy`, the direction named by
    `sortDir`, and the sort itself. */
module Sorting {
  import opened Results
  import opened Entities

  /** String order character by character, by Unicode code point, a proper prefix before
      any longer string. This is `String.compareTo`'s order for text within the Basic
      Multilingual Plane; for characters beyond it, which Java compares as UTF-16 code
      units, the two orders can differ. */
  predicate LexLeq(a: string, b: string)
  {
    if a == [] then true
    else if b == [] then false
    else if a[0] != b[0] then a[0] < b[0]
    else LexLeq(a[1..], b[1..])
  }

  lemma {:induction false} LexLeqTotal(a: string, b: string)
    ensures LexLeq(a, b) || LexLeq(b, a)
  {
    if a != [] && b != [] && a[0] == b[0] {
      LexLeqTotal(a[1..], b[1..]);
    }
  }

  lemma {:induction false} LexLeqTransitive(a: string, b: string, c: string)
    requires LexLeq(a, b) && LexLeq(b, c)
    ensures LexLeq(a, c)
  {
    if a != [] && b != [] && c != [] && a[0] == b[0] == c[0] {
      LexLeqTransitive(a[1..], b[1..], c[1..]);
    }
  }

  /** The post properties a listing can be sorted by. */
  datatype SortField = Id | Title | Description | Content | CreatedAt

  /** The property named by `sortBy`; a name that is no property of a post is not
      sortable. */
  function SortFieldNamed(name: string): (f: Option<SortField>)
    ensures f == Some(Title) <==> name == "title"
    ensures f == Some(CreatedAt) <==> name == "createdAt"
  {
    if name == "id" then Some(Id)
    else if name == "title" then Some(Title)
    else if name == "description" then Some(Description)
    else if name == "content" then Some(Content)
    else if name == "createdAt" then Some(CreatedAt)
    else None
  }

  datatype Direction = Ascending | Descending

  /** The lower-case form of an ASCII letter; other characters are left alone. */
  function ToLower(c: char): char
  {
    if 'A' <= c <= 'Z' then (c as int - 'A' as int + 'a' as int) as char else c
  }

  /** `String.equalsIgnoreCase`, for ASCII letters. */
  predicate EqualsIgnoreCase(a: string, b: string)
  {
    |a| == |b| && forall i | 0 <= i < |a| :: ToLower(a[i]) == ToLower(b[i])
  }

  /** The direction `sortDir` asks for: descending when it is "desc" in any letter case,
      ascending for every other value. */
  function DirectionNamed(sortDir: string): Direction
  {
    if EqualsIgnoreCase(sortDir, "desc") then Descending else Ascending
  }

  /** Letter case does not matter: spellings of `sortDir` that differ only in the case of
      their letters ask for the same direction. */
  lemma DirectionCaseInsensitive(s: string, t: string)
    requires EqualsIgnoreCase(s, t)
    ensures DirectionNamed(s) == DirectionNamed(t)
  {
  }

  /** Descending exactly for the four letters d, e, s, c, each in either case; every other
      value, the empty string included, sorts ascending. */
  lemma DescendingIff(s: string)
    ensures DirectionNamed(s) == Descending <==>
      && |s| == 4
      && (s[0] == 'd' || s[0] == 'D') && (s[1] == 'e' || s[1] == 'E')
      && (s[2] == 's' || s[2] == 'S') && (s[3] == 'c' || s[3] == 'C')
  {
    assert ToLower('D') == 'd' && ToLower('E') == 'e' && ToLower('S') == 's' && ToLower('C') == 'c';
  }

  /** The values the listing requests use pick the expected directions. */
  lemma DirectionExamples()
    ensures DirectionNamed("asc") == Ascending && DirectionNamed("ASC") == Ascending
    ensures DirectionNamed("desc") == Descending && DirectionNamed("DESC") == Descending
    ensures DirectionNamed("Desc") == Descending && DirectionNamed("") == Ascending
  {
    assert ToLower('D') == 'd' && ToLower('E') == 'e' && ToLower('S') == 's' && ToLower('C') == 'c';
  }

  /** Post `a` may precede post `b` in ascending order of field `f`. */
  predicate FieldLeq(a: (int, Post), b: (int, Post), f: SortField)
  {
    match f
    case Id => a.0 <= b.0
    case Title => LexLeq(a.1.title, b.1.title)
    case Description => LexLeq(a.1.description, b.1.description)
    case Content => LexLeq(a.1.content, b.1.content)
    case CreatedAt => a.1.createdAt <= b.1.createdAt
  }

  /** Post `a` may precede post `b` when sorting by `f` in direction `d`. */
  predicate InOrder(a: (int, Post), b: (int, Post), f: SortField, d: Direction)
  {
    if d == Ascending then FieldLeq(a, b, f) else FieldLeq(b, a, f)
  }

  lemma InOrderTotal(a: (int, Post), b: (int, Post), f: SortField, d: Direction)
    ensures InOrder(a, b, f, d) || InOrder(b, a, f, d)
  {
    match f
    case Title => LexLeqTotal(a.1.title, b.1.title);
    case Description => LexLeqTotal(a.1.description, b.1.description);
    case Content => LexLeqTotal(a.1.content, b.1.content);
    case _ =>
  }

  lemma InOrderTransitive(a: (int, Post), b: (int, Post), c: (int, Post), f: SortField, d: Direction)
    requires InOrder(a, b, f, d) && InOrder(b, c, f, d)
    ensures InOrder(a, c, f, d)
  {
    match f
    case Title =>
      if d == Ascending { LexLeqTransitive(a.1.title, b.1.title, c.1.title); }
      else { LexLeqTransitive(c.1.title, b.1.title, a.1.title); }
    case Description =>
      if d == Ascending { LexLeqTransitive(a.1.description, b.1.description, c.1.description); }
      else { LexLeqTransitive(c.1.description, b.1.description, a.1.description); }
    case Content =>
      if d == Ascending { LexLeqTransitive(a.1.content, b.1.content, c.1.content); }
      else { LexLeqTransitive(c.1.content, b.1.content, a.1.content); }
    case _ =>
  }

  /** Every post precedes every later one in the requested order. */
  predicate Sorted(s: seq<(int, Post)>, f: SortField, d: Direction)
  {
    forall i, j | 0 <= i < j < |s| :: InOrder(s[i], s[j], f, d)
  }

  /** `x` may precede every post of `s`. */
  predicate PrecedesAll(x: (int, Post), s: seq<(int, Post)>, f: SortField, d: Direction)
  {
    forall j | 0 <= j < |s| :: InOrder(x, s[j], f, d)
  }

  lemma SortedCons(x: (int, Post), s: seq<(int, Post)>, f: SortField, d: Direction)
    requires PrecedesAll(x, s, f, d) && Sorted(s, f, d)
    ensures Sorted([x] + s, f, d)
  {
    var r := [x] + s;
    forall i, j | 0 <= i < j < |r| ensures InOrder(r[i], r[j], f, d) {
      if i > 0 { assert r[i] == s[i - 1] && r[j] == s[j - 1]; }
    }
  }

  /** `x` placed into `s` ahead of the first post it may precede. */
  function Insert(x: (int, Post), s: seq<(int, Post)>, f: SortField, d: Direction): (r: seq<(int, Post)>)
    ensures multiset(r) == multiset(s) + multiset{x}
  {
    if s == [] then [x]
    else if InOrder(x, s[0], f, d) then [x] + s
    else
      assert s == [s[0]] + s[1..];
      [s[0]] + Insert(x, s[1..], f, d)
  }

  lemma {:induction false} InsertSorted(x: (int, Post), s: seq<(int, Post)>, f: SortField, d: Direction)
    requires Sorted(s, f, d)
    ensures Sorted(Insert(x, s, f, d), f, d)
  {
    if s == [] {
    } else if InOrder(x, s[0], f, d) {
      forall j | 0 <= j < |s| ensures InOrder(x, s[j], f, d) {
        if j > 0 { InOrderTransitive(x, s[0], s[j], f, d); }
      }
      SortedCons(x, s, f, d);
    } else {
      InOrderTotal(x, s[0], f, d);
      var tail := s[1..];
      assert Sorted(tail, f, d) by {
        forall i, j | 0 <= i < j < |tail| ensures InOrder(tail[i], tail[j], f, d) {
          assert tail[i] == s[i + 1] && tail[j] == s[j + 1];
        }
      }
      InsertSorted(x, tail, f, d);
      var rest := Insert(x, tail, f, d);
      forall j | 0 <= j < |rest| ensures InOrder(s[0], rest[j], f, d) {
        assert rest[j] in multiset(rest);
        if rest[j] != x {
          assert rest[j] in multiset(tail);
          var k :| 0 <= k < |tail| && tail[k] == rest[j];
          assert tail[k] == s[k + 1];
        }
      }
      SortedCons(s[0], rest, f, d);
    }
  }

  /** The posts in the order `f`, `d` asks for: the same posts, each as often as before,
      sorted. */
  function SortPosts(s: seq<(int, Post)>, f: SortField, d: Direction): (r: seq<(int, Post)>)
    ensures Sorted(r, f, d)
    ensures multiset(r) == multiset(s)
  {
    if s == [] then []
    else
      assert s == [s[0]] + s[1..];
      InsertSorted(s[0], SortPosts(s[1..], f, d), f, d);
      Insert(s[0], SortPosts(s[1..], f, d), f, d)
  }
}
