/** Hyperlinks and the first-match lookup by relation name. */
module Links {
  import opened Wrappers

  /** A hyperlink: its relation name and its target. A Link's other metadata
      is not part of this model; two links are equal when rel and href are. */
  datatype Link = Link(rel: string, href: string)

  /** The relation of the link that identifies a resource itself. */
  const REL_SELF: string := "self"

  /** The earliest link in `links` whose relation is `rel`, or None when no
      link has that relation (the specification of getLink). */
  function FirstWithRel(links: seq<Link>, rel: string): (r: Option<Link>)
    ensures r.None? <==> forall i :: 0 <= i < |links| ==> links[i].rel != rel
    ensures r.Some? ==> r.value in links && r.value.rel == rel
  {
    if links == [] then None
    else if links[0].rel == rel then Some(links[0])
    else FirstWithRel(links[1..], rel)
  }

  /** Whichever link comes first with relation `rel` is the one found: a
      later link with the same relation is never returned. */
  lemma {:induction false} FirstWithRelIsEarliest(links: seq<Link>, rel: string, k: nat)
    requires k < |links| && links[k].rel == rel
    requires forall j :: 0 <= j < k ==> links[j].rel != rel
    ensures FirstWithRel(links, rel) == Some(links[k])
  {
    if k > 0 {
      FirstWithRelIsEarliest(links[1..], rel, k - 1);
    }
  }

  /** Appending links never changes an existing answer: the lookup on
      `a + b` answers from `a` when `a` has a match and from `b` otherwise. */
  lemma {:induction false} FirstWithRelAppend(a: seq<Link>, b: seq<Link>, rel: string)
    ensures FirstWithRel(a + b, rel)
            == if FirstWithRel(a, rel).Some? then FirstWithRel(a, rel) else FirstWithRel(b, rel)
  {
    if a != [] {
      assert (a + b)[1..] == a[1..] + b;
      FirstWithRelAppend(a[1..], b, rel);
    } else {
      assert a + b == b;
    }
  }
}
