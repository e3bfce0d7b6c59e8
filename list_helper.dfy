/** Aggregations over a list of blogs (`utils/list_helper.js`). */
module ListHelper {
  import opened Wrappers

  /** A blog record as the helpers see it. JavaScript numbers are modelled as `int`. */
  datatype Blog = Blog(title: string, author: string, url: string, likes: int)

  /** The `{ author, blogs }` record returned by `mostBlogs`. */
  datatype AuthorCount = AuthorCount(author: string, blogs: nat)

  // ---------------------------------------------------------------- dummy

  /** `dummy` ignores its argument, which may even be absent. */
  function Dummy(blogs: Option<seq<Blog>>): (r: int)
    ensures r == 1
  {
    1
  }

  // ----------------------------------------------------------- totalLikes

  /** `blogs.reduce((sum, item) => sum + item.likes, 0)`: a left fold, so the
      last blog is added last. */
  function TotalLikes(blogs: seq<Blog>): int
  {
    if blogs == [] then 0
    else TotalLikes(blogs[..|blogs| - 1]) + blogs[|blogs| - 1].likes
  }

  /** The sum splits over concatenation, whatever the split point. */
  lemma {:induction false} TotalLikesAppend(a: seq<Blog>, b: seq<Blog>)
    ensures TotalLikes(a + b) == TotalLikes(a) + TotalLikes(b)
    decreases |b|
  {
    if b == [] {
      assert a + b == a;
    } else {
      var n := |b| - 1;
      assert (a + b)[..|a + b| - 1] == a + b[..n];
      assert (a + b)[|a + b| - 1] == b[n];
      TotalLikesAppend(a, b[..n]);
    }
  }

  /** Read from the front: the first blog's likes plus the total of the rest. */
  lemma TotalLikesCons(b: Blog, rest: seq<Blog>)
    ensures TotalLikes([b] + rest) == b.likes + TotalLikes(rest)
  {
    TotalLikesAppend([b], rest);
    assert [b][..0] == [];
  }

  /** With non-negative likes, the total is at least the likes of any one blog. */
  lemma {:induction false} TotalLikesBoundsEach(blogs: seq<Blog>, i: nat)
    requires i < |blogs|
    requires forall k :: 0 <= k < |blogs| ==> blogs[k].likes >= 0
    ensures TotalLikes(blogs) >= blogs[i].likes
    decreases |blogs|
  {
    var n := |blogs| - 1;
    TotalLikesNonNegative(blogs[..n]);
    if i < n {
      TotalLikesBoundsEach(blogs[..n], i);
    }
  }

  /** With non-negative likes, the total is non-negative. */
  lemma {:induction false} TotalLikesNonNegative(blogs: seq<Blog>)
    requires forall k :: 0 <= k < |blogs| ==> blogs[k].likes >= 0
    ensures TotalLikes(blogs) >= 0
    decreases |blogs|
  {
    if blogs != [] {
      TotalLikesNonNegative(blogs[..|blogs| - 1]);
    }
  }

  // --------------------------------------------------------- favoriteBlog

  /** Every blog has at least as many likes as the next one. */
  predicate DescendingByLikes(s: seq<Blog>)
  {
    forall i :: 0 <= i < |s| - 1 ==> s[i].likes >= s[i + 1].likes
  }

  /** Insertion step of a stable sort on the key `-likes`: `b` comes from
      earlier in the input than everything in `sorted`, so it goes in front
      of every blog with no more likes than it (ties keep input order). */
  function InsertByLikes(b: Blog, sorted: seq<Blog>): (r: seq<Blog>)
    requires DescendingByLikes(sorted)
    ensures multiset(r) == multiset(sorted) + multiset{b}
    ensures DescendingByLikes(r)
    ensures r[0] == if sorted == [] || b.likes >= sorted[0].likes then b else sorted[0]
  {
    if sorted == [] then [b]
    else if b.likes >= sorted[0].likes then [b] + sorted
    else
      var tail := InsertByLikes(b, sorted[1..]);
      assert sorted == [sorted[0]] + sorted[1..];
      [sorted[0]] + tail
  }

  /** `_.sortBy(blogs, [(blog) => -blog.likes])`: lodash's `sortBy` is stable,
      so this is a stable sort into descending order of likes. */
  function SortByLikesDesc(s: seq<Blog>): (r: seq<Blog>)
    ensures multiset(r) == multiset(s)
    ensures DescendingByLikes(r)
  {
    if s == [] then []
    else
      assert s == [s[0]] + s[1..];
      InsertByLikes(s[0], SortByLikesDesc(s[1..]))
  }

  /** `i` is the earliest position holding the maximum number of likes. */
  predicate IsFirstMostLiked(s: seq<Blog>, i: int)
  {
    && 0 <= i < |s|
    && (forall j :: 0 <= j < |s| ==> s[j].likes <= s[i].likes)
    && (forall j :: 0 <= j < i ==> s[j].likes < s[i].likes)
  }

  /** The position of the first blog with the most likes. */
  function FirstMostLikedIndex(s: seq<Blog>): (i: nat)
    requires |s| > 0
    ensures IsFirstMostLiked(s, i)
  {
    if |s| == 1 then 0
    else
      var j := FirstMostLikedIndex(s[1..]) + 1;
      if s[0].likes >= s[j].likes then 0 else j
  }

  /** The head of the stable descending sort is the first most-liked blog. */
  lemma {:induction false} SortHeadIsFirstMostLiked(s: seq<Blog>)
    requires |s| > 0
    ensures |SortByLikesDesc(s)| > 0
    ensures SortByLikesDesc(s)[0] == s[FirstMostLikedIndex(s)]
  {
    assert s == [s[0]] + s[1..];
    if |s| > 1 {
      SortHeadIsFirstMostLiked(s[1..]);
    }
  }

  /** `favoriteBlog`: `null` for an absent or empty list, otherwise the head
      of the list sorted by descending likes. */
  function FavoriteBlog(blogs: Option<seq<Blog>>): (r: Option<Blog>)
    ensures r.None? <==> blogs.None? || |blogs.value| == 0
    ensures r.Some? ==> r.value in blogs.value
    ensures r.Some? ==> forall b | b in blogs.value :: b.likes <= r.value.likes
  {
    if blogs.Some? && |blogs.value| > 0 then
      SortHeadIsFirstMostLiked(blogs.value);
      Some(SortByLikesDesc(blogs.value)[0])
    else
      None
  }

  /** On ties the earliest blog wins: the result is exactly the blog at the
      first position of maximal likes. */
  lemma FavoriteBlogIsFirstMostLiked(blogs: seq<Blog>)
    requires |blogs| > 0
    ensures FavoriteBlog(Some(blogs)) == Some(blogs[FirstMostLikedIndex(blogs)])
    ensures exists i :: IsFirstMostLiked(blogs, i) && FavoriteBlog(Some(blogs)) == Some(blogs[i])
  {
  }

  // ------------------------------------------------------------ mostBlogs

  /** How many blogs in `s` are by `author`. */
  function Occurrences(s: seq<Blog>, author: string): nat
  {
    if s == [] then 0
    else (if s[0].author == author then 1 else 0) + Occurrences(s[1..], author)
  }

  /** Some blog in `s` is by `author`. */
  predicate HasAuthor(s: seq<Blog>, author: string)
  {
    exists i :: 0 <= i < |s| && s[i].author == author
  }

  /** Position of the first blog by `author`. */
  function FirstIndexOf(s: seq<Blog>, author: string): (i: nat)
    requires HasAuthor(s, author)
    ensures i < |s| && s[i].author == author
    ensures forall j :: 0 <= j < i ==> s[j].author != author
  {
    if s[0].author == author then 0
    else
      assert HasAuthor(s[1..], author) by {
        var i :| 0 <= i < |s| && s[i].author == author;
        assert s[1..][i - 1].author == author;
      }
      FirstIndexOf(s[1..], author) + 1
  }

  /** The object built by `_.countBy(blogs, 'author')`: its keys in
      enumeration order (the order in which they were first added) and the
      value stored under each key. */
  datatype Counted = Counted(keys: seq<string>, counts: map<string, nat>)

  /** `_.countBy`: walks the list, setting a new key to 1 or incrementing an
      existing one. */
  function CountBy(s: seq<Blog>): Counted
  {
    if s == [] then Counted([], map[])
    else
      var c := CountBy(s[..|s| - 1]);
      var a := s[|s| - 1].author;
      if a in c.counts then Counted(c.keys, c.counts[a := c.counts[a] + 1])
      else Counted(c.keys + [a], c.counts[a := 1])
  }

  /** What `CountBy` promises: the keys are exactly the authors, each once,
      listed in order of first appearance, and each maps to its number of blogs. */
  ghost predicate CountsAuthors(s: seq<Blog>, c: Counted)
  {
    && (forall i, j :: 0 <= i < j < |c.keys| ==> c.keys[i] != c.keys[j])
    && (forall a :: a in c.counts <==> a in c.keys)
    && (forall k :: 0 <= k < |c.keys| ==> c.keys[k] in c.counts)
    && (forall a :: a in c.keys <==> HasAuthor(s, a))
    && (forall a :: a in c.counts ==> c.counts[a] == Occurrences(s, a))
    && InFirstAppearanceOrder(s, c.keys)
  }

  lemma {:induction false} OccurrencesSnoc(s: seq<Blog>, b: Blog, a: string)
    ensures Occurrences(s + [b], a) == Occurrences(s, a) + (if b.author == a then 1 else 0)
    decreases |s|
  {
    if s == [] {
      assert [b][1..] == [];
    } else {
      assert (s + [b])[1..] == s[1..] + [b];
      OccurrencesSnoc(s[1..], b, a);
    }
  }

  lemma OccurrencesPositive(s: seq<Blog>, a: string)
    requires HasAuthor(s, a)
    ensures Occurrences(s, a) >= 1
  {
  }

  lemma FirstIndexOfSnoc(s: seq<Blog>, b: Blog, a: string)
    requires HasAuthor(s, a)
    ensures HasAuthor(s + [b], a)
    ensures FirstIndexOf(s + [b], a) == FirstIndexOf(s, a)
  {
    var i := FirstIndexOf(s, a);
    assert (s + [b])[i] == s[i];
  }

  lemma HasAuthorSnoc(p: seq<Blog>, b: Blog, a: string)
    ensures HasAuthor(p + [b], a) <==> HasAuthor(p, a) || b.author == a
  {
    var s := p + [b];
    if HasAuthor(p, a) {
      var i :| 0 <= i < |p| && p[i].author == a;
      assert s[i] == p[i];
    }
    if HasAuthor(s, a) && b.author != a {
      var i :| 0 <= i < |s| && s[i].author == a;
      assert p[i] == s[i];
    }
    if b.author == a {
      assert s[|s| - 1].author == a;
    }
  }

  /** The keys of `CountBy` are the authors, each listed once, and the map
      is defined exactly on them. */
  lemma {:induction false} CountByKeys(s: seq<Blog>)
    ensures forall i, j :: 0 <= i < j < |CountBy(s).keys| ==> CountBy(s).keys[i] != CountBy(s).keys[j]
    ensures forall a :: a in CountBy(s).counts <==> a in CountBy(s).keys
    ensures forall a :: a in CountBy(s).keys <==> HasAuthor(s, a)
    decreases |s|
  {
    if s != [] {
      var p := s[..|s| - 1];
      var b := s[|s| - 1];
      assert s == p + [b];
      CountByKeys(p);
      forall a ensures HasAuthor(s, a) <==> HasAuthor(p, a) || b.author == a {
        HasAuthorSnoc(p, b, a);
      }
    }
  }

  /** Each key of `CountBy` maps to its author's number of blogs. */
  lemma {:induction false} CountByValues(s: seq<Blog>)
    ensures forall a :: a in CountBy(s).counts ==> CountBy(s).counts[a] == Occurrences(s, a)
    decreases |s|
  {
    if s != [] {
      var p := s[..|s| - 1];
      var b := s[|s| - 1];
      assert s == p + [b];
      CountByValues(p);
      CountByKeys(p);
      forall a ensures Occurrences(s, a) == Occurrences(p, a) + (if b.author == a then 1 else 0) {
        OccurrencesSnoc(p, b, a);
      }
      forall a | a in CountBy(p).keys ensures HasAuthor(p, a) {}
      forall a | !HasAuthor(p, a) ensures Occurrences(p, a) == 0 {
        OccurrencesAbsent(p, a);
      }
    }
  }

  lemma {:induction false} OccurrencesAbsent(s: seq<Blog>, a: string)
    requires !HasAuthor(s, a)
    ensures Occurrences(s, a) == 0
    decreases |s|
  {
    if s != [] {
      assert s[0].author != a;
      assert !HasAuthor(s[1..], a);
      OccurrencesAbsent(s[1..], a);
    }
  }

  /** Every key is an author of `s`, and the keys come in order of each
      author's first blog. */
  ghost predicate InFirstAppearanceOrder(s: seq<Blog>, keys: seq<string>)
  {
    && (forall k :: 0 <= k < |keys| ==> HasAuthor(s, keys[k]))
    && (forall i, j :: 0 <= i < j < |keys| ==> FirstIndexOf(s, keys[i]) < FirstIndexOf(s, keys[j]))
  }

  /** Appending a blog keeps the order of the existing keys, and a new author
      goes after all of them. */
  lemma OrderSnoc(p: seq<Blog>, b: Blog, keys: seq<string>)
    requires InFirstAppearanceOrder(p, keys)
    ensures InFirstAppearanceOrder(p + [b], keys)
    ensures !HasAuthor(p, b.author) ==> InFirstAppearanceOrder(p + [b], keys + [b.author])
  {
    var s := p + [b];
    forall k | 0 <= k < |keys| ensures HasAuthor(s, keys[k]) && FirstIndexOf(s, keys[k]) == FirstIndexOf(p, keys[k]) < |p| {
      FirstIndexOfSnoc(p, b, keys[k]);
    }
    if !HasAuthor(p, b.author) {
      assert HasAuthor(s, b.author) by { assert s[|p|].author == b.author; }
      var k := FirstIndexOf(s, b.author);
      assert k == |p|;
      var keys' := keys + [b.author];
      forall i, j | 0 <= i < j < |keys'|
        ensures FirstIndexOf(s, keys'[i]) < FirstIndexOf(s, keys'[j])
      {
        assert keys'[i] == keys[i];
        if j < |keys| {
          assert keys'[j] == keys[j];
        }
      }
    }
  }

  /** The keys of `CountBy` come in order of their author's first blog. */
  lemma {:induction false} CountByOrder(s: seq<Blog>)
    ensures InFirstAppearanceOrder(s, CountBy(s).keys)
    decreases |s|
  {
    if s != [] {
      var p := s[..|s| - 1];
      var b := s[|s| - 1];
      assert s == p + [b];
      CountByOrder(p);
      CountByKeys(p);
      OrderSnoc(p, b, CountBy(p).keys);
    }
  }

  /** `CountBy` meets its specification. */
  lemma CountByCounts(s: seq<Blog>)
    ensures CountsAuthors(s, CountBy(s))
  {
    CountByKeys(s);
    CountByValues(s);
    CountByOrder(s);
  }

  /** `r` is a correct answer of `mostBlogs` on the non-empty list `s`: an
      author of the list with its exact count, no author has more, and every
      author that first appears earlier has strictly fewer. */
  ghost predicate IsMostBlogs(s: seq<Blog>, r: AuthorCount)
  {
    && HasAuthor(s, r.author)
    && r.blogs == Occurrences(s, r.author)
    && r.blogs >= 1
    && (forall i :: 0 <= i < |s| ==> Occurrences(s, s[i].author) <= r.blogs)
    && (forall i :: 0 <= i < |s| && FirstIndexOf(s, s[i].author) < FirstIndexOf(s, r.author) ==>
          Occurrences(s, s[i].author) < r.blogs)
  }

  /** What the scan of `mostBlogs` leaves behind: the key at `best` has the
      largest count, and every earlier key a strictly smaller one. */
  lemma ScanFindsMostBlogs(s: seq<Blog>, best: nat)
    requires best < |CountBy(s).keys|
    requires var counted := CountBy(s);
             && (forall k :: 0 <= k < |counted.keys| ==> counted.keys[k] in counted.counts)
             && (forall k :: 0 <= k < |counted.keys| ==> counted.counts[counted.keys[k]] <= counted.counts[counted.keys[best]])
             && (forall k :: 0 <= k < best ==> counted.counts[counted.keys[k]] < counted.counts[counted.keys[best]])
    ensures CountBy(s).keys[best] in CountBy(s).counts
    ensures IsMostBlogs(s, AuthorCount(CountBy(s).keys[best], CountBy(s).counts[CountBy(s).keys[best]]))
  {
    var counted := CountBy(s);
    CountByKeys(s);
    CountByValues(s);
    CountByOrder(s);
    var author := counted.keys[best];
    var count := counted.counts[author];
    assert HasAuthor(s, author);
    OccurrencesPositive(s, author);
    forall i | 0 <= i < |s|
      ensures Occurrences(s, s[i].author) <= count
      ensures FirstIndexOf(s, s[i].author) < FirstIndexOf(s, author) ==> Occurrences(s, s[i].author) < count
    {
      assert HasAuthor(s, s[i].author);
      var k :| 0 <= k < |counted.keys| && counted.keys[k] == s[i].author;
      assert k < best ==> counted.counts[s[i].author] < count;
      assert FirstIndexOf(s, s[i].author) < FirstIndexOf(s, author) ==> k < best;
    }
  }

  /** A single blog makes its author the answer, with one blog. */
  lemma SingleBlogIsMostBlogs(s: seq<Blog>)
    requires |s| == 1
    ensures IsMostBlogs(s, AuthorCount(s[0].author, 1))
  {
  }

  /** A non-empty list's `countBy` object has a key, and every key holds a
      positive count. */
  lemma CountByKeysCounted(s: seq<Blog>)
    requires |s| > 0
    ensures |CountBy(s).keys| > 0
    ensures forall k :: 0 <= k < |CountBy(s).keys| ==>
              CountBy(s).keys[k] in CountBy(s).counts && CountBy(s).counts[CountBy(s).keys[k]] >= 1
  {
  }

  /** `mostBlogs`: `null` for an absent or empty list, `{author, blogs: 1}` for
      a single blog, otherwise the scan of the `countBy` object that keeps a
      key only when its count is strictly greater than the best so far. */
  method MostBlogs(blogs: Option<seq<Blog>>) returns (r: Option<AuthorCount>)
    ensures r.None? <==> blogs.None? || |blogs.value| == 0
    ensures blogs.Some? && |blogs.value| == 1 ==> r == Some(AuthorCount(blogs.value[0].author, 1))
    ensures r.Some? ==> IsMostBlogs(blogs.value, r.value)
  {
    if blogs.None? || |blogs.value| == 0 {
      return None;
    }
    var s := blogs.value;
    if |s| == 1 {
      SingleBlogIsMostBlogs(s);
      return Some(AuthorCount(s[0].author, 1));
    }
    var counted := CountBy(s);
    CountByKeysCounted(s);
    var author := "";
    var count := 0;
    ghost var best := 0;
    for i := 0 to |counted.keys|
      invariant best <= i
      invariant i == 0 ==> count == 0
      invariant i > 0 ==> best < i && author == counted.keys[best] && count == counted.counts[author]
      invariant forall k :: 0 <= k < i ==> counted.counts[counted.keys[k]] <= count
      invariant forall k :: 0 <= k < best ==> counted.counts[counted.keys[k]] < count
    {
      var key := counted.keys[i];
      if counted.counts[key] > count {
        count := counted.counts[key];
        author := key;
        best := i;
      }
    }
    ScanFindsMostBlogs(s, best);
    r := Some(AuthorCount(author, count));
  }
}
