/** The resource representation: a ResourceSupport aggregates outbound links
    and embedded sub-resources, each tagged with a relation name, and an
    EmbeddedResource pairs a nested ResourceSupport with its relation name.
    The two refer to each other, so they share this module. */
module Hateoas {
  import opened Wrappers
  import opened Links

  /** The exceptions the core can raise: Spring's Assert.notNull throws
      IllegalArgumentException with its message; a dereference of null throws
      NullPointerException. */
  datatype Exception = IllegalArgument(message: string) | NullPointer

  const LINK_MUST_NOT_BE_NULL: string := "Link must not be null!"
  const LINKS_MUST_NOT_BE_NULL: string := "Given links must not be null!"
  const EMBEDDED_RESOURCE_MUST_NOT_BE_NULL: string := "Embedded resource must not be null!"

  // ---------------------------------------------------------------------------
  // EmbeddedResource
  // ---------------------------------------------------------------------------

  /** A nested resource under a relation name. Both parts may be null: the
      constructor stores its arguments without checking them, and nothing
      changes them afterwards. `resource` and `rel` are getResource and
      getRel. */
  datatype EmbeddedResource = EmbeddedResource(resource: ResourceSupport?, rel: Option<string>)

  /** The protected no-argument constructor, kept for deserialisers: both
      fields keep their default value null. */
  function UnsetEmbeddedResource(): (e: EmbeddedResource)
    ensures e.resource == null && e.rel.None?
  {
    EmbeddedResource(null, None)
  }

  /** The getters hand back exactly what the two-argument constructor was
      given, null included: nothing is validated or normalised. */
  lemma GettersReturnConstructorArguments(resource: ResourceSupport?, rel: Option<string>)
    ensures EmbeddedResource(resource, rel).resource == resource
    ensures EmbeddedResource(resource, rel).rel == rel
  {
  }

  /** The entries of `es` whose relation is `rel`, in their original order
      (the specification of getEmbeddedResources(rel)). An entry with a null
      relation never matches. */
  function WithRel(es: seq<EmbeddedResource>, rel: string): (r: seq<EmbeddedResource>)
    ensures |r| <= |es|
    ensures forall i :: 0 <= i < |r| ==> r[i] in es && r[i].rel == Some(rel)
    ensures forall i :: 0 <= i < |es| && es[i].rel == Some(rel) ==> es[i] in r
  {
    if es == [] then []
    else (if es[0].rel == Some(rel) then [es[0]] else []) + WithRel(es[1..], rel)
  }

  /** Selecting from a concatenation is concatenating the selections: the
      filter keeps the relative order of what it keeps, and embedding more
      resources only extends an earlier selection at its end. */
  lemma {:induction false} WithRelAppend(a: seq<EmbeddedResource>, b: seq<EmbeddedResource>, rel: string)
    ensures WithRel(a + b, rel) == WithRel(a, rel) + WithRel(b, rel)
  {
    if a == [] {
      assert a + b == b;
    } else {
      assert (a + b)[1..] == a[1..] + b;
      WithRelAppend(a[1..], b, rel);
    }
  }

  /** True when no entry of `es` has a null relation, so that a scan over `es`
      that dereferences each relation does not throw. */
  predicate AllRelsPresent(es: seq<EmbeddedResource>)
  {
    forall i :: 0 <= i < |es| ==> es[i].rel.Some?
  }

  // ---------------------------------------------------------------------------
  // Iterating over a Java Iterable whose elements may be null
  // ---------------------------------------------------------------------------

  /** The number of leading non-null elements of `xs`: the position of the
      first null, or |xs| when there is none. */
  function NonNullPrefixLength<T>(xs: seq<Option<T>>): (k: nat)
    ensures k <= |xs|
    ensures forall i :: 0 <= i < k ==> xs[i].Some?
    ensures k < |xs| ==> xs[k].None?
  {
    if xs == [] || xs[0].None? then 0 else 1 + NonNullPrefixLength(xs[1..])
  }

  /** The values of a sequence that holds no null. */
  function Values<T>(xs: seq<Option<T>>): (r: seq<T>)
    requires forall i :: 0 <= i < |xs| ==> xs[i].Some?
    ensures |r| == |xs|
    ensures forall i :: 0 <= i < |xs| ==> xs[i] == Some(r[i])
  {
    seq(|xs|, i requires 0 <= i < |xs| => xs[i].value)
  }

  // ---------------------------------------------------------------------------
  // hashCode
  // ---------------------------------------------------------------------------

  const INT_MIN: int := -0x8000_0000
  const INT_MAX: int := 0x7fff_ffff

  /** Java's int arithmetic: `x` wrapped into 32-bit two's complement. */
  function ToInt(x: int): (r: int)
    ensures INT_MIN <= r <= INT_MAX
    ensures (r - x) % 0x1_0000_0000 == 0
    ensures INT_MIN <= x <= INT_MAX ==> r == x
  {
    (x - INT_MIN) % 0x1_0000_0000 + INT_MIN
  }

  /** java.util.List's hashCode: start from 1 and fold each element in as
      31 * h + element hash, in int arithmetic. Link.hashCode is not part of
      this model and is the parameter `linkHash`. */
  function ListHashCode(links: seq<Link>, linkHash: Link -> int): (h: int)
    ensures INT_MIN <= h <= INT_MAX
  {
    if links == [] then 1
    else ToInt(31 * ListHashCode(links[..|links| - 1], linkHash) + linkHash(links[|links| - 1]))
  }

  // ---------------------------------------------------------------------------
  // ResourceSupport
  // ---------------------------------------------------------------------------

  /** The base class of response payloads: an append-only list of links and an
      append-only list of embedded resources. */
  class ResourceSupport {
    var links: seq<Link>
    var embeddedResources: seq<EmbeddedResource>

    /** A new resource has neither links nor embedded resources. */
    constructor ()
      ensures links == [] && embeddedResources == []
    {
      links := [];
      embeddedResources := [];
    }

    /** The link whose relation is "self". */
    method GetId() returns (r: Option<Link>)
      ensures r == FirstWithRel(links, REL_SELF)
      ensures r.Some? ==> r.value.rel == "self" && r.value in links
      ensures r.None? <==> forall i :: 0 <= i < |links| ==> links[i].rel != "self"
    {
      r := GetLink(REL_SELF);
    }

    /** add(Link): a null link is rejected before anything changes; otherwise
        it goes at the end of the links. */
    method Add(link: Option<Link>) returns (outcome: Outcome<Exception>)
      modifies this
      ensures link.None? ==> outcome == Fail(IllegalArgument(LINK_MUST_NOT_BE_NULL)) && links == old(links)
      ensures link.Some? ==> outcome == Pass && links == old(links) + [link.value]
      ensures embeddedResources == old(embeddedResources)
    {
      if link.None? {
        return Fail(IllegalArgument(LINK_MUST_NOT_BE_NULL));
      }
      links := links + [link.value];
      outcome := Pass;
    }

    /** add(Iterable<Link>): a null iterable is rejected before anything
        changes; otherwise the elements are added one at a time in iteration
        order. A null element throws from Add, and the elements before it
        stay added. */
    method AddAll(candidates: Option<seq<Option<Link>>>) returns (outcome: Outcome<Exception>)
      modifies this
      ensures candidates.None? ==>
                outcome == Fail(IllegalArgument(LINKS_MUST_NOT_BE_NULL)) && links == old(links)
      ensures candidates.Some? ==>
                var xs := candidates.value;
                var k := NonNullPrefixLength(xs);
                links == old(links) + Values(xs[..k]) &&
                outcome == (if k < |xs| then Fail(IllegalArgument(LINK_MUST_NOT_BE_NULL)) else Pass)
      ensures embeddedResources == old(embeddedResources)
    {
      if candidates.None? {
        return Fail(IllegalArgument(LINKS_MUST_NOT_BE_NULL));
      }
      var xs := candidates.value;
      for i := 0 to |xs|
        invariant forall j :: 0 <= j < i ==> xs[j].Some?
        invariant links == old(links) + Values(xs[..i])
        invariant embeddedResources == old(embeddedResources)
      {
        outcome := Add(xs[i]);
        if outcome.Fail? {
          assert NonNullPrefixLength(xs) == i;
          return;
        }
        assert Values(xs[..i + 1]) == Values(xs[..i]) + [xs[i].value];
      }
      assert xs[..|xs|] == xs;
      outcome := Pass;
    }

    /** embed(EmbeddedResource): a null resource is rejected before anything
        changes; otherwise it goes at the end of the embedded resources. */
    method Embed(embedded: Option<EmbeddedResource>) returns (outcome: Outcome<Exception>)
      modifies this
      ensures embedded.None? ==>
                outcome == Fail(IllegalArgument(EMBEDDED_RESOURCE_MUST_NOT_BE_NULL)) &&
                embeddedResources == old(embeddedResources)
      ensures embedded.Some? ==>
                outcome == Pass && embeddedResources == old(embeddedResources) + [embedded.value]
      ensures links == old(links)
    {
      if embedded.None? {
        return Fail(IllegalArgument(EMBEDDED_RESOURCE_MUST_NOT_BE_NULL));
      }
      embeddedResources := embeddedResources + [embedded.value];
      outcome := Pass;
    }

    /** embed(Iterable<EmbeddedResource>): Java's null guard here tests the
        `links` field, which is never null, instead of its argument, so it
        never fires; a null iterable throws NullPointerException when the
        loop starts. Otherwise the elements are embedded one at a time in
        order, and a null element throws from Embed after the elements before
        it were embedded. */
    method EmbedAll(candidates: Option<seq<Option<EmbeddedResource>>>) returns (outcome: Outcome<Exception>)
      modifies this
      ensures candidates.None? ==>
                outcome == Fail(NullPointer) && embeddedResources == old(embeddedResources)
      ensures candidates.Some? ==>
                var xs := candidates.value;
                var k := NonNullPrefixLength(xs);
                embeddedResources == old(embeddedResources) + Values(xs[..k]) &&
                outcome == (if k < |xs| then Fail(IllegalArgument(EMBEDDED_RESOURCE_MUST_NOT_BE_NULL)) else Pass)
      ensures links == old(links)
    {
      // The guard asserts that the links field is non-null, which always holds.
      if candidates.None? {
        return Fail(NullPointer);
      }
      var xs := candidates.value;
      for i := 0 to |xs|
        invariant forall j :: 0 <= j < i ==> xs[j].Some?
        invariant embeddedResources == old(embeddedResources) + Values(xs[..i])
        invariant links == old(links)
      {
        outcome := Embed(xs[i]);
        if outcome.Fail? {
          assert NonNullPrefixLength(xs) == i;
          return;
        }
        assert Values(xs[..i + 1]) == Values(xs[..i]) + [xs[i].value];
      }
      assert xs[..|xs|] == xs;
      outcome := Pass;
    }

    /** Whether there is any link at all: exactly when some relation name
        finds a link. */
    function HasLinks(): (b: bool)
      reads this
      ensures b <==> |links| > 0
      ensures b <==> exists rel :: FirstWithRel(links, rel).Some?
    {
      assert links != [] ==> FirstWithRel(links, links[0].rel).Some?;
      links != []
    }

    /** Whether getLink(rel) finds a link, that is, whether any link has
        relation `rel`. */
    method HasLink(rel: string) returns (b: bool)
      ensures b <==> FirstWithRel(links, rel).Some?
      ensures b <==> exists i :: 0 <= i < |links| && links[i].rel == rel
    {
      var link := GetLink(rel);
      b := link.Some?;
    }

    /** A read-only view of all links, in the order they were added. */
    function GetLinks(): (r: seq<Link>)
      reads this
      ensures r == links
    {
      links
    }

    /** getLink(rel): scans the links in order and returns the first whose
        relation is `rel`, or null when none is. */
    method GetLink(rel: string) returns (r: Option<Link>)
      ensures r == FirstWithRel(links, rel)
    {
      for i := 0 to |links|
        invariant FirstWithRel(links, rel) == FirstWithRel(links[i..], rel)
      {
        if links[i].rel == rel {
          return Some(links[i]);
        }
        assert links[i..][1..] == links[i + 1..];
      }
      return None;
    }

    /** Whether anything is embedded at all. An entry with a null relation
        counts here, though no relation name selects it. */
    function HasEmbeddedResources(): (b: bool)
      reads this
      ensures b <==> |embeddedResources| > 0
      ensures AllRelsPresent(embeddedResources) ==>
                (b <==> exists rel :: WithRel(embeddedResources, rel) != [])
    {
      assert embeddedResources != [] && embeddedResources[0].rel.Some? ==>
               embeddedResources[0] in WithRel(embeddedResources, embeddedResources[0].rel.value);
      embeddedResources != []
    }

    /** Whether getEmbeddedResources(rel) is non-empty; it throws when that
        call throws. */
    method HasEmbeddedResource(rel: string) returns (r: Result<bool, Exception>)
      ensures r.Failure? <==> !AllRelsPresent(embeddedResources)
      ensures r.Failure? ==> r.error == NullPointer
      ensures r.Success? ==> (r.value <==> WithRel(embeddedResources, rel) != [])
      ensures r.Success? ==>
                (r.value <==> exists i :: 0 <= i < |embeddedResources| && embeddedResources[i].rel == Some(rel))
    {
      var selected := GetEmbeddedResourcesWithRel(rel);
      if selected.Failure? {
        return Failure(selected.error);
      }
      if selected.value != [] {
        assert selected.value[0] in WithRel(embeddedResources, rel);
      }
      r := Success(selected.value != []);
    }

    /** A read-only view of all embedded resources, in the order they were
        embedded. */
    function GetEmbeddedResources(): (r: seq<EmbeddedResource>)
      reads this
      ensures r == embeddedResources
    {
      embeddedResources
    }

    /** getEmbeddedResources(rel): a fresh list of the entries whose relation
        is `rel`, in order, empty when none matches. The scan calls equals on
        each entry's relation, so an entry with a null relation makes the
        whole call throw. */
    method GetEmbeddedResourcesWithRel(rel: string) returns (r: Result<seq<EmbeddedResource>, Exception>)
      ensures r.Failure? <==> !AllRelsPresent(embeddedResources)
      ensures r.Failure? ==> r.error == NullPointer
      ensures r.Success? ==> r.value == WithRel(embeddedResources, rel)
    {
      var selected := [];
      for i := 0 to |embeddedResources|
        invariant AllRelsPresent(embeddedResources[..i])
        invariant selected == WithRel(embeddedResources[..i], rel)
      {
        var embedded := embeddedResources[i];
        if embedded.rel.None? {
          return Failure(NullPointer);
        }
        WithRelAppend(embeddedResources[..i], [embedded], rel);
        assert embeddedResources[..i + 1] == embeddedResources[..i] + [embedded];
        if embedded.rel.value == rel {
          selected := selected + [embedded];
        }
      }
      assert embeddedResources[..|embeddedResources|] == embeddedResources;
      r := Success(selected);
    }

    /** equals: the same object, or another resource with the same links in
        the same order. Embedded resources play no part. */
    function Equals(that: ResourceSupport): (b: bool)
      reads this, that
      ensures b <==> links == that.links
    {
      this == that || links == that.links
    }

    /** hashCode: the hash of the link list, so it is a Java int and depends
        on the links alone. */
    function HashCode(linkHash: Link -> int): (h: int)
      reads this
      ensures INT_MIN <= h <= INT_MAX
      ensures links == [] ==> h == 1
    {
      ListHashCode(links, linkHash)
    }
  }

  /** Equal resources have equal hash codes, whatever they embed. */
  lemma EqualsAgreesWithHashCode(a: ResourceSupport, b: ResourceSupport, linkHash: Link -> int)
    requires a.Equals(b)
    ensures a.HashCode(linkHash) == b.HashCode(linkHash)
  {
  }

  /** An example: links ("self", "/a"), ("next", "/b") and then
      ("self", "/c") are all kept in order, and the "self" lookup returns the
      first of the two self links. */
  method InsertionOrderExample() returns (all: seq<Link>, self: Option<Link>)
    ensures all == [Link("self", "/a"), Link("next", "/b"), Link("self", "/c")]
    ensures self == Some(Link("self", "/a"))
  {
    var resource := new ResourceSupport();
    var _ := resource.AddAll(Some([Some(Link("self", "/a")), Some(Link("next", "/b"))]));
    var _ := resource.Add(Some(Link("self", "/c")));
    all := resource.GetLinks();
    self := resource.GetId();
    FirstWithRelIsEarliest(all, REL_SELF, 0);
  }
}
