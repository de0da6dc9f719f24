/** Vocabulary shared by the server models, the route handlers and the
    client pages: optional values, document ids, handler replies and the
    six-level experience enum that both the job and the user schema use. */
module Common {

  /** A value that may be absent (`undefined` in the JavaScript source). */
  datatype Option<+T> = None | Some(value: T)

  /** A document id. Ids are compared through their string form in the
      source (`x.toString() === y.toString()`), so they are strings here. */
  type Id = string

  /** JavaScript truthiness of an optional string: present and not empty. */
  predicate Given(o: Option<string>) {
    o.Some? && o.value != ""
  }

  /** What a request handler sends back: HTTP status, message, JSON body. */
  datatype Reply<T> = Reply(status: int, message: string, body: Option<T>)

  /** Mongo's `{ field: { $in: wanted } }` on an array field: some element of
      `have` is one of `wanted`. */
  predicate Intersects<T(==)>(have: seq<T>, wanted: seq<T>) {
    exists x :: x in have && x in wanted
  }

  /** The experience enum, declared identically in the job and user schemas. */
  datatype ExperienceLevel = Entry | Junior | Mid | Senior | Lead | Executive

  const ExperienceNames: seq<string> := ["entry", "junior", "mid", "senior", "lead", "executive"]

  function ExperienceName(e: ExperienceLevel): (r: string)
    ensures r in ExperienceNames
  {
    match e
    case Entry => "entry"
    case Junior => "junior"
    case Mid => "mid"
    case Senior => "senior"
    case Lead => "lead"
    case Executive => "executive"
  }

  /** Mongoose's enum validator: a string is accepted iff it is one of the
      six names, and then it denotes the level with that name. */
  function ParseExperience(s: string): (r: Option<ExperienceLevel>)
    ensures r.Some? <==> s in ExperienceNames
    ensures r.Some? ==> ExperienceName(r.value) == s
  {
    if s == "entry" then Some(Entry)
    else if s == "junior" then Some(Junior)
    else if s == "mid" then Some(Mid)
    else if s == "senior" then Some(Senior)
    else if s == "lead" then Some(Lead)
    else if s == "executive" then Some(Executive)
    else None
  }

  /** Every level's name is accepted back as that same level. */
  lemma ExperienceRoundTrip(e: ExperienceLevel)
    ensures ParseExperience(ExperienceName(e)) == Some(e)
  {
  }

  /** The first position whose element satisfies `p`, if there is one: what
      a lookup by a unique key (`findById`, `findOne`) finds in a sequence. */
  function FirstIndex<T>(xs: seq<T>, p: T -> bool): (r: Option<nat>)
    ensures r.Some? ==> r.value < |xs| && p(xs[r.value])
    ensures r.Some? ==> forall k :: 0 <= k < r.value ==> !p(xs[k])
    ensures r.None? ==> forall k :: 0 <= k < |xs| ==> !p(xs[k])
  {
    if xs == [] then None
    else if p(xs[0]) then Some(0)
    else
      var rest := FirstIndex(xs[1..], p);
      if rest.Some? then Some(rest.value + 1) else None
  }

  /** The lookup only sees which elements satisfy `p`. */
  lemma {:induction false} FirstIndexAgrees<T>(xs: seq<T>, ys: seq<T>, p: T -> bool)
    requires |xs| == |ys|
    requires forall k :: 0 <= k < |xs| ==> p(xs[k]) == p(ys[k])
    ensures FirstIndex(xs, p) == FirstIndex(ys, p)
  {
    if xs != [] && !p(xs[0]) {
      FirstIndexAgrees(xs[1..], ys[1..], p);
    }
  }

  /** `xs.filter(keep)`: the elements that satisfy `keep`, in their order. */
  function Filter<T>(xs: seq<T>, keep: T -> bool): (r: seq<T>)
    ensures |r| <= |xs|
    ensures forall k :: 0 <= k < |r| ==> keep(r[k])
  {
    if xs == [] then []
    else (if keep(xs[0]) then [xs[0]] else []) + Filter(xs[1..], keep)
  }

  /** Reference count: how many elements of `xs` satisfy `p`. */
  function Count<T>(xs: seq<T>, p: T -> bool): (r: nat)
    ensures r <= |xs|
  {
    if xs == [] then 0
    else Count(xs[..|xs| - 1], p) + (if p(xs[|xs| - 1]) then 1 else 0)
  }

  /** `filter(...).length` counts the elements that pass. */
  lemma {:induction false} FilterCount<T>(xs: seq<T>, p: T -> bool)
    ensures |Filter(xs, p)| == Count(xs, p)
  {
    if xs != [] {
      var init := xs[..|xs| - 1];
      var last := xs[|xs| - 1];
      assert xs == init + [last];
      FilterAppend(init, [last], p);
      FilterCount(init, p);
      assert [last][1..] == [];
    }
  }

  /** When every element passes, all of them are counted. */
  lemma {:induction false} CountAll<T>(xs: seq<T>, p: T -> bool)
    ensures (forall k :: 0 <= k < |xs| ==> p(xs[k])) ==> Count(xs, p) == |xs|
  {
    if xs != [] {
      CountAll(xs[..|xs| - 1], p);
    }
  }

  /** When no element passes, none is counted. */
  lemma {:induction false} CountNone<T>(xs: seq<T>, p: T -> bool)
    ensures (forall k :: 0 <= k < |xs| ==> !p(xs[k])) ==> Count(xs, p) == 0
  {
    if xs != [] {
      CountNone(xs[..|xs| - 1], p);
    }
  }

  /** Filtering invents no element and drops none that passes. */
  lemma {:induction false} FilterMembers<T>(xs: seq<T>, keep: T -> bool)
    ensures forall k :: 0 <= k < |Filter(xs, keep)| ==> Filter(xs, keep)[k] in xs
    ensures forall k :: 0 <= k < |xs| && keep(xs[k]) ==> xs[k] in Filter(xs, keep)
  {
    if xs != [] {
      FilterMembers(xs[1..], keep);
      var r := Filter(xs, keep);
      var head := if keep(xs[0]) then [xs[0]] else [];
      var rest := Filter(xs[1..], keep);
      assert r == head + rest;
      forall k | 0 <= k < |r| ensures r[k] in xs {
        if k >= |head| {
          var j := k - |head|;
          assert r[k] == rest[j] && rest[j] in xs[1..];
          var i :| 0 <= i < |xs[1..]| && xs[1..][i] == rest[j];
          assert xs[i + 1] == r[k];
        } else {
          assert r[k] == xs[0];
        }
      }
      forall k | 0 <= k < |xs| && keep(xs[k]) ensures xs[k] in r {
        if k > 0 {
          assert xs[k] == xs[1..][k - 1];
          assert xs[k] in rest;
        }
      }
    }
  }

  /** Filtering a concatenation filters each part, so order is kept. */
  lemma {:induction false} FilterAppend<T>(xs: seq<T>, ys: seq<T>, keep: T -> bool)
    ensures Filter(xs + ys, keep) == Filter(xs, keep) + Filter(ys, keep)
  {
    if xs == [] {
      assert xs + ys == ys;
    } else {
      assert (xs + ys)[1..] == xs[1..] + ys;
      FilterAppend(xs[1..], ys, keep);
    }
  }

  /** A filter that keeps everything is the identity. */
  lemma {:induction false} FilterKeepsAll<T>(xs: seq<T>, keep: T -> bool)
    requires forall x :: x in xs ==> keep(x)
    ensures Filter(xs, keep) == xs
  {
    if xs != [] {
      FilterKeepsAll(xs[1..], keep);
    }
  }

  /** A stricter condition never keeps more elements. */
  lemma {:induction false} FilterStricter<T>(xs: seq<T>, strict: T -> bool, loose: T -> bool)
    requires forall x :: x in xs && strict(x) ==> loose(x)
    ensures |Filter(xs, strict)| <= |Filter(xs, loose)|
  {
    if xs != [] {
      FilterStricter(xs[1..], strict, loose);
    }
  }
}
