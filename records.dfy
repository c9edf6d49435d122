/**
 * The records the site manages (projects, playlist songs and the editable
 * site copy) and the remove-by-key filter the project and playlist deletes
 * share.
 */
module Records {
  import opened Options

  /** A portfolio project; the optional fields of the record are `Option`s. */
  datatype Project = Project(
    id: string,
    title: string,
    description: string,
    fullDescription: Option<string>,
    features: Option<seq<string>>,
    techStack: Option<seq<string>>,
    tags: seq<string>,
    imageUrl: string,
    gallery: Option<seq<string>>,
    link: string,
    status: string)

  /** A playlist entry. */
  datatype Song = Song(id: string, url: string, name: string)

  /** The editable copy of the landing, about and contact pages. */
  datatype SiteContent = SiteContent(
    heroTagline: string,
    heroHeadline1: string,
    heroHeadline2: string,
    heroDescription: string,
    aboutTitle: string,
    aboutText: string,
    aboutHeadline: string,
    aboutManifesto: string,
    aboutValues: seq<string>,
    aboutQuote: string,
    contactTitle: string,
    contactSubtitle: string)

  function ProjectId(p: Project): string
  {
    p.id
  }

  function SongId(s: Song): string
  {
    s.id
  }

  /** `xs.filter(x => key(x) !== id)`. */
  function Without<T>(xs: seq<T>, key: T -> string, id: string): (r: seq<T>)
    ensures |r| <= |xs|
    decreases |xs|
  {
    if xs == [] then []
    else (if key(xs[0]) == id then [] else [xs[0]]) + Without(xs[1..], key, id)
  }

  /** The filter keeps exactly the elements whose key differs from `id`. */
  lemma {:induction false} WithoutMembers<T>(xs: seq<T>, key: T -> string, id: string)
    ensures forall x :: x in Without(xs, key, id) <==> x in xs && key(x) != id
    decreases |xs|
  {
    if xs != [] {
      WithoutMembers(xs[1..], key, id);
      assert forall x :: x in xs <==> x == xs[0] || x in xs[1..];
    }
  }

  /** The filter works piecewise, so it keeps the relative order of what it keeps. */
  lemma {:induction false} WithoutAppend<T>(xs: seq<T>, ys: seq<T>, key: T -> string, id: string)
    ensures Without(xs + ys, key, id) == Without(xs, key, id) + Without(ys, key, id)
    decreases |xs|
  {
    if xs == [] {
      assert xs + ys == ys;
    } else {
      assert (xs + ys)[0] == xs[0] && (xs + ys)[1..] == xs[1..] + ys;
      WithoutAppend(xs[1..], ys, key, id);
    }
  }

  /** Nothing to remove leaves the sequence as it was. */
  lemma {:induction false} WithoutAbsent<T>(xs: seq<T>, key: T -> string, id: string)
    requires forall i :: 0 <= i < |xs| ==> key(xs[i]) != id
    ensures Without(xs, key, id) == xs
    decreases |xs|
  {
    if xs != [] {
      WithoutAbsent(xs[1..], key, id);
    }
  }

  /** Removing twice is removing once. */
  lemma {:induction false} WithoutIdempotent<T>(xs: seq<T>, key: T -> string, id: string)
    ensures Without(Without(xs, key, id), key, id) == Without(xs, key, id)
    decreases |xs|
  {
    if xs != [] {
      var head := if key(xs[0]) == id then [] else [xs[0]];
      var rest := Without(xs[1..], key, id);
      WithoutIdempotent(xs[1..], key, id);
      WithoutAppend(head, rest, key, id);
      if head != [] {
        assert head[1..] == [];
      }
    }
  }
}
