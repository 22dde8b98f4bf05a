# ResourceSupport: links and embedded resources of a HATEOAS representation

This project models the resource-representation core of a Spring HATEOAS
fragment. A `ResourceSupport` is the base class of REST response payloads. It
owns two append-only, ordered lists:

- `links`: hyperlinks, each a `Link` with a relation name (`rel`) and a target (`href`);
- `embeddedResources`: nested resources, each an `EmbeddedResource` that pairs a
  nested `ResourceSupport` with a relation name.

It answers first-match lookup of a link by relation (`getLink`, `hasLink`, and
`getId` for the `"self"` relation), an order-preserving filter of embedded
resources by relation, emptiness tests, and an equality and hash that look at
the links only.

Layout:

- `wrappers.dfy` (module `Wrappers`): `Option` stands for a Java reference that may be null;
  `Outcome` and `Result` stand for a void or value-returning method that may throw.
- `link.dfy` (module `Links`): the `Link` value, `REL_SELF`, and `FirstWithRel`, the
  specification of the first-match lookup, with its lemmas.
- `resource_support.dfy` (module `Hateoas`): the `Exception` kinds with Spring's assertion
  messages, the `EmbeddedResource` value, the `WithRel` filter, Java's `List.hashCode` in
  32-bit arithmetic, and the `ResourceSupport` class. Its fields are `seq`s that the
  mutators reassign. The two loop-based queries (`GetLink`, `GetEmbeddedResourcesWithRel`)
  are methods with loop invariants, proved against the specification functions.

Java's `null` is modelled explicitly:

- a link or embedded-resource argument is an `Option`;
- an `Iterable` argument is an `Option<seq<Option<T>>>` (the iterable may be null, and so
  may each element);
- an embedded resource's relation is an `Option<string>`.

An exception is a `Fail`/`Failure` result. It carries `IllegalArgument(message)` for
Spring's `Assert.notNull` and `NullPointer` for a dereference of null.

Two behaviours of the code are modelled as written:

- The null guard in `embed(Iterable)` tests the `links` field, not its argument, even
  though its message says "Embedded resources must not be null!". The `links` field is
  never null, so the guard never fires, and a null iterable throws `NullPointerException`
  when the loop starts. Nothing changes either way. `EmbedAll` models this.
- The `EmbeddedResource` constructor validates nothing. A null relation is stored as
  given, and it makes every later `getEmbeddedResources(rel)` and `hasEmbeddedResource(rel)`
  throw `NullPointerException`. `GetEmbeddedResourcesWithRel` and `HasEmbeddedResource`
  model this.

## Model

| member | source | states |
|---|---|---|
| `Links.FirstWithRel` | src/main/java/org/springframework/hateoas/ResourceSupport.java:134-143 | the lookup finds nothing exactly when no link has the relation; what it finds is one of the links and has that relation |
| `Links.FirstWithRelIsEarliest` | src/main/java/org/springframework/hateoas/ResourceSupport.java:136-140 | the link found is the earliest one with the relation; a later link with the same relation is never returned |
| `Links.FirstWithRelAppend` | src/main/java/org/springframework/hateoas/ResourceSupport.java:61-64 | appending links never changes a lookup that already finds something; otherwise the lookup answers from the appended links |
| `Hateoas.UnsetEmbeddedResource` | src/main/java/org/springframework/hateoas/EmbeddedResource.java:20 | the protected no-argument constructor leaves both the resource and the relation null |
| `Hateoas.GettersReturnConstructorArguments` | src/main/java/org/springframework/hateoas/EmbeddedResource.java:7-18 | getResource and getRel return exactly the constructor's arguments, null included, because nothing is validated |
| `Hateoas.WithRel` | src/main/java/org/springframework/hateoas/ResourceSupport.java:183-187 | the selection is no longer than the list; every selected entry comes from the list and has the relation; every entry of the list with the relation is selected |
| `Hateoas.WithRelAppend` | src/main/java/org/springframework/hateoas/ResourceSupport.java:183-187 | selecting from a concatenation gives the concatenation of the selections, so the filter keeps the original order, and embedding more only extends a selection at its end |
| `Hateoas.ResourceSupport.constructor` | src/main/java/org/springframework/hateoas/ResourceSupport.java:42-45 | a new resource has no links and no embedded resources |
| `Hateoas.ResourceSupport.GetId` | src/main/java/org/springframework/hateoas/ResourceSupport.java:52-54 | getId is the lookup for relation "self": it returns a self link from the list, or null exactly when there is none |
| `Hateoas.ResourceSupport.Add` | src/main/java/org/springframework/hateoas/ResourceSupport.java:61-64 | a null link throws IllegalArgumentException("Link must not be null!") and changes nothing; otherwise the link is appended at the end; embedded resources never change |
| `Hateoas.ResourceSupport.AddAll` | src/main/java/org/springframework/hateoas/ResourceSupport.java:71-76 | a null iterable throws IllegalArgumentException and changes nothing; otherwise the elements up to the first null are appended in order; a null element throws, and the elements before it stay added |
| `Hateoas.ResourceSupport.Embed` | src/main/java/org/springframework/hateoas/ResourceSupport.java:83-86 | a null resource throws IllegalArgumentException and changes nothing; otherwise it is appended at the end; links never change |
| `Hateoas.ResourceSupport.EmbedAll` | src/main/java/org/springframework/hateoas/ResourceSupport.java:93-98 | the guard on the links field never fires, so a null iterable throws NullPointerException and changes nothing; otherwise the elements up to the first null are embedded in order, and a null element throws after them |
| `Hateoas.ResourceSupport.HasLinks` | src/main/java/org/springframework/hateoas/ResourceSupport.java:105-107 | there are links exactly when the list is non-empty, exactly when some relation name finds a link |
| `Hateoas.ResourceSupport.HasLink` | src/main/java/org/springframework/hateoas/ResourceSupport.java:115-117 | true exactly when getLink finds a link, exactly when some link has the relation |
| `Hateoas.ResourceSupport.GetLinks` | src/main/java/org/springframework/hateoas/ResourceSupport.java:124-126 | the whole link list, in the order Add and AddAll appended it |
| `Hateoas.ResourceSupport.GetLink` | src/main/java/org/springframework/hateoas/ResourceSupport.java:134-143 | the scan with early return gives the first-match lookup `FirstWithRel` on the current links |
| `Hateoas.ResourceSupport.HasEmbeddedResources` | src/main/java/org/springframework/hateoas/ResourceSupport.java:150-152 | true exactly when something is embedded; when no entry has a null relation, exactly when some relation name selects something |
| `Hateoas.ResourceSupport.HasEmbeddedResource` | src/main/java/org/springframework/hateoas/ResourceSupport.java:160-162 | throws NullPointerException exactly when some entry has a null relation; otherwise true exactly when getEmbeddedResources(rel) is non-empty, exactly when some entry has the relation |
| `Hateoas.ResourceSupport.GetEmbeddedResources` | src/main/java/org/springframework/hateoas/ResourceSupport.java:169-171 | the whole list of embedded resources, in the order Embed and EmbedAll appended it |
| `Hateoas.ResourceSupport.GetEmbeddedResourcesWithRel` | src/main/java/org/springframework/hateoas/ResourceSupport.java:179-190 | throws NullPointerException exactly when some entry has a null relation; otherwise returns the `WithRel` selection, empty and not null when nothing matches |
| `Hateoas.ResourceSupport.Equals` | src/main/java/org/springframework/hateoas/ResourceSupport.java:206-219 | two resources are equal exactly when their link lists are equal in content and order, whatever they embed, which also makes equals reflexive |
| `Hateoas.ResourceSupport.HashCode` | src/main/java/org/springframework/hateoas/ResourceSupport.java:226-228 | the hash is a Java int computed from the links only, and 1 for a resource without links |
| `Hateoas.EqualsAgreesWithHashCode` | src/main/java/org/springframework/hateoas/ResourceSupport.java:206-228 | equal resources have equal hash codes, whatever they embed |
| `Hateoas.InsertionOrderExample` | src/main/java/org/springframework/hateoas/ResourceSupport.java:134-143 | after adding ("self","/a") and ("next","/b") and then ("self","/c"), getLinks lists all three in order and getId returns ("self","/a") |

## Left out

- The XML and JSON serialisation annotations. They are hints to external serialisers and carry no logic.
- `toString`. It only formats the external renderings of the two lists.
- The exact integer `Link.hashCode` returns. `Link` is an external type, so its hash is the parameter `linkHash` of `HashCode`. `java.util.List`'s documented formula over it is modelled, including 32-bit wrap-around.
- `Link` beyond its relation and target. `Link.equals` is modelled as equality of both fields. `Link.REL_SELF` is the constant `"self"`.
- The `Identifiable<Link>` interface. Only its one method, `getId`, is modelled.
- GetLinks: returns the link list at the time of the call, not the live unmodifiable view that later appends show through.
- GetEmbeddedResources: returns the list at the time of the call, not the live unmodifiable view.
- Equals: takes a non-null `ResourceSupport`. The crash of `equals(null)` and the comparison of runtime classes, which matter only for subclasses and foreign objects, are not modelled.
- A null relation argument to `getLink`, `hasLink`, `getEmbeddedResources(rel)` and `hasEmbeddedResource`. Relation arguments are non-null strings here. In Java, `equals(null)` is false, so such a call finds nothing, or throws as modelled when an entry's relation is null.
- AddAll / EmbedAll: an argument that is the resource's own live list, as in `r.add(r.getLinks())` or `r.embed(r.getEmbeddedResources())`, is not modelled. The model reads the argument as a snapshot and appends all of it. In Java, the first append changes the list being iterated, so the next step of the loop throws `ConcurrentModificationException` after exactly one element was appended, when that list is non-empty. When it is empty, the loop never runs in Java or in the model, and the call returns normally.
- Iterables are finite sequences read once. Lazy or infinite iterables, and iterators that throw, are not modelled.
- `EmbeddedResource` is a value. Java compares its instances by reference, but nothing in this core compares them.
- Concurrent use. The class has no synchronisation and is meant for a single thread.
