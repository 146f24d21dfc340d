/** The slug allocator of the post controller: `makeUniqueSlug` tries `base`,
    then `base-1`, `base-2`, ... until `slugExists` finds no other live post
    holding the candidate. */
module Slugs {
  import opened Common
  import opened PostModel

  /** The decimal digit for `d` */
  function DigitChar(d: nat): (c: char)
    requires d < 10
    ensures '0' <= c <= '9'
    ensures c as int - '0' as int == d
  {
    "0123456789"[d]
  }

  /** PHP's string interpolation of a non-negative integer */
  function Decimal(n: nat): (s: string)
    ensures 1 <= |s|
    ensures n < 10 <==> |s| == 1
    ensures s[|s| - 1] == DigitChar(n % 10)
    ensures forall i :: 0 <= i < |s| ==> '0' <= s[i] <= '9'
    decreases n
  {
    if n < 10 then [DigitChar(n)] else Decimal(n / 10) + [DigitChar(n % 10)]
  }

  /** Different counters print differently. */
  lemma {:induction false} DecimalInjective(a: nat, b: nat)
    requires Decimal(a) == Decimal(b)
    ensures a == b
    decreases a
  {
    var s := Decimal(a);
    assert DigitChar(a % 10) == DigitChar(b % 10);
    assert a % 10 == b % 10;
    if 10 <= a {
      assert 10 <= b;
      assert Decimal(a / 10) == s[..|s| - 1] == Decimal(b / 10);
      DecimalInjective(a / 10, b / 10);
    }
  }

  /** The i-th slug `makeUniqueSlug` tries: `base` itself, then `base-i`. */
  function Candidate(base: string, i: nat): (s: string)
    ensures base <= s
  {
    if i == 0 then base else base + "-" + Decimal(i)
  }

  /** Distinct attempts are distinct slugs, so the loop never retries one. */
  lemma CandidateInjective(base: string, i: nat, j: nat)
    requires Candidate(base, i) == Candidate(base, j)
    ensures i == j
  {
    if i != 0 && j != 0 {
      var s := Candidate(base, i);
      assert Decimal(i) == s[|base| + 1..];
      assert Decimal(j) == s[|base| + 1..];
      DecimalInjective(i, j);
    }
  }

  /** `Str::slug($title) ?: Str::random(8)` */
  function BaseSlug(slugified: string, token: string): (base: string)
    requires |token| == 8
    ensures 1 <= |base|
    ensures base == slugified || base == token
    ensures Falsy(slugified) <==> base == token && slugified != token
  {
    if Falsy(slugified) then token else slugified
  }

  /** `->when($ignoreId, ...)`: an ignore id that PHP reads as false (null or 0)
      excludes nothing. */
  predicate Ignored(p: PostRecord, ignoreId: Option<nat>) {
    ignoreId.Some? && ignoreId.value != 0 && p.id == ignoreId.value
  }

  /** `slugExists`: some live post, other than the ignored one, holds `slug`. */
  predicate SlugExists(posts: seq<PostRecord>, slug: string, ignoreId: Option<nat>) {
    exists i :: 0 <= i < |posts| && posts[i].slug == slug && !posts[i].deleted && !Ignored(posts[i], ignoreId)
  }

  /** The slugs `slugExists` can find: a finite set */
  ghost function TakenSlugs(posts: seq<PostRecord>, ignoreId: Option<nat>): (taken: set<string>)
    ensures forall s :: s in taken <==> SlugExists(posts, s, ignoreId)
  {
    set i | 0 <= i < |posts| && !posts[i].deleted && !Ignored(posts[i], ignoreId) :: posts[i].slug
  }

  lemma {:induction false} SubsetCardinality(a: set<string>, b: set<string>)
    requires a <= b
    ensures |a| <= |b|
    decreases |a|
  {
    if a != {} {
      var x :| x in a;
      SubsetCardinality(a - {x}, b - {x});
    }
  }

  /** One turn of the slug loop: attempt `n` is taken and untried, so marking
      it tried keeps the tried set inside the taken one, one larger, with every
      later attempt still untried. */
  lemma SlugStep(posts: seq<PostRecord>, ignoreId: Option<nat>, base: string, tried: set<string>, n: nat)
    requires tried <= TakenSlugs(posts, ignoreId)
    requires |tried| == n
    requires forall j: nat :: n <= j ==> Candidate(base, j) !in tried
    requires SlugExists(posts, Candidate(base, n), ignoreId)
    ensures tried + {Candidate(base, n)} <= TakenSlugs(posts, ignoreId)
    ensures |tried + {Candidate(base, n)}| == n + 1 <= |TakenSlugs(posts, ignoreId)|
    ensures forall j: nat :: n + 1 <= j ==> Candidate(base, j) !in tried + {Candidate(base, n)}
  {
    SubsetCardinality(tried + {Candidate(base, n)}, TakenSlugs(posts, ignoreId));
    forall j: nat | n + 1 <= j
      ensures Candidate(base, j) !in tried + {Candidate(base, n)}
    {
      if Candidate(base, j) == Candidate(base, n) {
        CandidateInjective(base, j, n);
      }
    }
  }

  /** `makeUniqueSlug`: always terminates, and returns the first candidate
      that no other live post holds. */
  method MakeUniqueSlug(posts: seq<PostRecord>, title: string, ignoreId: Option<nat>,
                        slugify: string -> string, token: string)
    returns (slug: string)
    requires |token| == 8
    ensures !SlugExists(posts, slug, ignoreId)
    ensures BaseSlug(slugify(title), token) <= slug
    ensures !SlugExists(posts, BaseSlug(slugify(title), token), ignoreId) ==> slug == BaseSlug(slugify(title), token)
    ensures exists k: nat :: slug == Candidate(BaseSlug(slugify(title), token), k)
                          && forall j: nat :: j < k ==> SlugExists(posts, Candidate(BaseSlug(slugify(title), token), j), ignoreId)
  {
    var base := BaseSlug(slugify(title), token);
    slug := base;
    var counter: nat := 1;
    ghost var taken := TakenSlugs(posts, ignoreId);
    ghost var tried: set<string> := {};
    while SlugExists(posts, slug, ignoreId)
      invariant 1 <= counter
      invariant slug == Candidate(base, counter - 1)
      invariant forall j: nat :: j < counter - 1 ==> SlugExists(posts, Candidate(base, j), ignoreId)
      invariant tried <= taken
      invariant |tried| == counter - 1
      invariant forall j: nat :: counter - 1 <= j ==> Candidate(base, j) !in tried
      decreases |taken| - |tried|
    {
      SlugStep(posts, ignoreId, base, tried, counter - 1);
      tried := tried + {slug};
      slug := base + "-" + Decimal(counter);
      assert slug == Candidate(base, counter);
      counter := counter + 1;
    }
  }
}
