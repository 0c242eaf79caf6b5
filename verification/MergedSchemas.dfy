/** Merging the request and response definitions, and what that preserves. */
module MergedSchemas {
  import opened Schemas

  // ------------------------------------------------------------- the merge

  /** A type read and written under different schemas. */
  predicate Collides(responses: Defs, requests: Defs, name: string) {
    name in requests && name in responses && responses[name] != requests[name]
  }

  function Renames(responses: Defs, requests: Defs): map<string, string> {
    map name | name in requests && Collides(responses, requests, name) :: name + REQUEST_SUFFIX
  }

  /** The name a request type is published under; `operation` picks it the same way. */
  function PublishedAs(responses: Defs, requests: Defs, name: string): string {
    Published(Renames(responses, requests), name)
  }

  /** `name` is one of `done` and is published as `key`. */
  predicate Publishes(responses: Defs, requests: Defs, done: set<string>, name: string, key: string) {
    name in done && name in requests && PublishedAs(responses, requests, name) == key
  }

  /** What `key` holds once the request types `done` are in: a renamed request schema
      if one was published there, and otherwise what the responses had. */
  ghost predicate EntryAfter(responses: Defs, requests: Defs, done: set<string>, merged: Defs, key: string) {
    if exists name :: Publishes(responses, requests, done, name, key)
    then key in merged && exists name :: Publishes(responses, requests, done, name, key)
                                         && merged[key] == RenameRefs(requests[name], Renames(responses, requests))
    else (key in merged <==> key in responses) && (key in merged ==> merged[key] == responses[key])
  }

  /** `merged` after the request types `done`, in whatever order they were inserted. */
  ghost predicate MergedSoFar(responses: Defs, requests: Defs, done: set<string>, merged: Defs) {
    forall key :: EntryAfter(responses, requests, done, merged, key)
  }

  ghost predicate IsMerged(responses: Defs, requests: Defs, merged: Defs) {
    MergedSoFar(responses, requests, requests.Keys, merged)
  }

  lemma InsertAt(responses: Defs, requests: Defs, done: set<string>, merged: Defs, name: string, merged': Defs, key: string)
    requires EntryAfter(responses, requests, done, merged, key) && name in requests
    requires merged' == merged[PublishedAs(responses, requests, name) := RenameRefs(requests[name], Renames(responses, requests))]
    ensures EntryAfter(responses, requests, done + {name}, merged', key)
  {
    forall n
      ensures Publishes(responses, requests, done + {name}, n, key) <==>
        Publishes(responses, requests, done, n, key) || (n == name && PublishedAs(responses, requests, name) == key)
    {
    }
    if PublishedAs(responses, requests, name) == key {
      assert Publishes(responses, requests, done + {name}, name, key);
    }
  }

  lemma InsertOne(responses: Defs, requests: Defs, done: set<string>, merged: Defs, name: string, merged': Defs)
    requires MergedSoFar(responses, requests, done, merged) && name in requests
    requires merged' == merged[PublishedAs(responses, requests, name) := RenameRefs(requests[name], Renames(responses, requests))]
    ensures MergedSoFar(responses, requests, done + {name}, merged')
  {
    forall key
      ensures EntryAfter(responses, requests, done + {name}, merged', key)
    {
      InsertAt(responses, requests, done, merged, name, merged', key);
    }
  }

  method MergeSchemas(responses: Defs, requests: Defs) returns (merged: Defs, renames: map<string, string>)
    ensures renames == Renames(responses, requests) && IsMerged(responses, requests, merged)
    ensures forall name :: name in renames <==> name in requests && name in responses && requests[name] != responses[name]
    ensures forall name :: name in renames ==> renames[name] == name + ['R', 'e', 'q', 'u', 'e', 's', 't']
  {
    renames := map[];
    var names := requests.Keys;
    while names != {}
      invariant names <= requests.Keys
      invariant forall name :: name in renames <==> name in requests.Keys - names && Collides(responses, requests, name)
      invariant forall name :: name in renames ==> renames[name] == name + REQUEST_SUFFIX
      decreases names
    {
      var name :| name in names;
      names := names - {name};
      if name in responses && responses[name] != requests[name] {
        renames := renames[name := name + REQUEST_SUFFIX];
      }
    }
    assert renames == Renames(responses, requests);
    merged := responses;
    names := requests.Keys;
    ghost var done: set<string> := {};
    while names != {}
      invariant names <= requests.Keys && done == requests.Keys - names
      invariant MergedSoFar(responses, requests, done, merged)
      decreases names
    {
      var name :| name in names;
      names := names - {name};
      var published := if name in renames then renames[name] else name;
      InsertOne(responses, requests, done, merged, name, merged[published := RenameRefs(requests[name], renames)]);
      done := done + {name};
      merged := merged[published := RenameRefs(requests[name], renames)];
    }
    assert done == requests.Keys;
  }

  // --------------------------------------------------- what the merge holds

  /** No type is already called what a renamed request type is to be called. */
  ghost predicate NoClash(responses: Defs, requests: Defs) {
    forall name :: Collides(responses, requests, name) ==>
      name + REQUEST_SUFFIX !in requests && name + REQUEST_SUFFIX !in responses
  }

  lemma SuffixInjective(a: string, b: string)
    requires a + REQUEST_SUFFIX == b + REQUEST_SUFFIX
    ensures a == b
  {
    assert a == (a + REQUEST_SUFFIX)[..|a|];
    assert |a| == |b|;
    assert b == (b + REQUEST_SUFFIX)[..|b|];
  }

  lemma PublishedInjective(responses: Defs, requests: Defs, a: string, b: string)
    requires NoClash(responses, requests) && a in requests && b in requests
    requires PublishedAs(responses, requests, a) == PublishedAs(responses, requests, b)
    ensures a == b
  {
    if Collides(responses, requests, a) && Collides(responses, requests, b) {
      SuffixInjective(a, b);
    }
  }

  /** Each request type is in the merged map, renamed throughout, under its published name. */
  lemma RequestEntry(responses: Defs, requests: Defs, merged: Defs, name: string)
    requires IsMerged(responses, requests, merged) && NoClash(responses, requests) && name in requests
    ensures PublishedAs(responses, requests, name) in merged
    ensures merged[PublishedAs(responses, requests, name)] == RenameRefs(requests[name], Renames(responses, requests))
  {
    var key := PublishedAs(responses, requests, name);
    assert EntryAfter(responses, requests, requests.Keys, merged, key) && Publishes(responses, requests, requests.Keys, name, key);
    var n :| Publishes(responses, requests, requests.Keys, n, key) && merged[key] == RenameRefs(requests[n], Renames(responses, requests));
    PublishedInjective(responses, requests, n, name);
  }

  /** A response type is as it was, unless it is also a request type that kept its name. */
  lemma ResponseEntry(responses: Defs, requests: Defs, merged: Defs, name: string)
    requires IsMerged(responses, requests, merged) && NoClash(responses, requests) && name in responses
    ensures name in merged
    ensures name !in requests || Collides(responses, requests, name) ==> merged[name] == responses[name]
    ensures name in requests && !Collides(responses, requests, name) ==>
      responses[name] == requests[name] && merged[name] == RenameRefs(requests[name], Renames(responses, requests))
  {
    var renames := Renames(responses, requests);
    if name in requests && !Collides(responses, requests, name) {
      RequestEntry(responses, requests, merged, name);
    } else {
      forall n
        ensures !Publishes(responses, requests, requests.Keys, n, name)
      {
        if Collides(responses, requests, n) {
          assert n + REQUEST_SUFFIX !in responses;
        }
      }
      assert EntryAfter(responses, requests, requests.Keys, merged, name);
    }
  }

  // ------------------------------------------------------------ the results

  lemma {:induction false} RequestMeaning(responses: Defs, requests: Defs, merged: Defs, v: Json, depth: nat)
    requires IsMerged(responses, requests, merged) && NoClash(responses, requests)
    requires Closed(requests) && Refs(v) <= requests.Keys
    ensures Expand(merged, RenameRefs(v, Renames(responses, requests)), depth) == Expand(requests, v, depth)
    decreases depth
  {
    var renames := Renames(responses, requests);
    forall name | name in Refs(v)
      ensures Published(renames, name) in merged && name in requests
      ensures depth > 0 ==> Expand(merged, merged[Published(renames, name)], depth - 1) == Expand(requests, requests[name], depth - 1)
    {
      RequestEntry(responses, requests, merged, name);
      if depth > 0 {
        RequestMeaning(responses, requests, merged, requests[name], depth - 1);
      }
    }
    RenamedMeansSame(merged, requests, renames, v, depth);
  }

  /** A request type means, at every depth, what it meant on its own: a request body
      that refers to its published name describes what the server reads. */
  lemma RequestsKeepTheirMeaning(responses: Defs, requests: Defs, merged: Defs, name: string, depth: nat)
    requires IsMerged(responses, requests, merged) && NoClash(responses, requests)
    requires Closed(requests) && name in requests
    ensures PublishedAs(responses, requests, name) in merged
    ensures Expand(merged, merged[PublishedAs(responses, requests, name)], depth) == Expand(requests, requests[name], depth)
  {
    RequestEntry(responses, requests, merged, name);
    RequestMeaning(responses, requests, merged, requests[name], depth);
  }

  lemma PublishedIsThere(responses: Defs, requests: Defs, merged: Defs, name: string)
    requires IsMerged(responses, requests, merged) && name in requests
    ensures PublishedAs(responses, requests, name) in merged
  {
    var key := PublishedAs(responses, requests, name);
    assert Publishes(responses, requests, requests.Keys, name, key);
    assert EntryAfter(responses, requests, requests.Keys, merged, key);
  }

  /** Every reference in the merged map resolves. */
  lemma MergedIsClosed(responses: Defs, requests: Defs, merged: Defs)
    requires IsMerged(responses, requests, merged) && Closed(responses) && Closed(requests)
    ensures Closed(merged)
  {
    var renames := Renames(responses, requests);
    forall key | key in merged
      ensures Refs(merged[key]) <= merged.Keys
    {
      assert EntryAfter(responses, requests, requests.Keys, merged, key);
      if exists name :: Publishes(responses, requests, requests.Keys, name, key) {
        var n :| Publishes(responses, requests, requests.Keys, n, key) && merged[key] == RenameRefs(requests[n], renames);
        RenamedRefs(requests[n], renames);
        forall name | name in Refs(requests[n])
          ensures Published(renames, name) in merged
        {
          PublishedIsThere(responses, requests, merged, name);
        }
      } else {
        forall name | name in Refs(responses[key])
          ensures name in merged
        {
          assert EntryAfter(responses, requests, requests.Keys, merged, name);
        }
      }
    }
  }

  /** A request type that kept its name although it refers to one that did not. */
  ghost predicate Mixed(responses: Defs, requests: Defs, name: string, target: string) {
    && name in requests && name in responses && !Collides(responses, requests, name)
    && target in Refs(requests[name]) && Collides(responses, requests, target)
  }

  /** Every type renamed under an unrenamed one means the same read and written. */
  ghost predicate MixedAgree(responses: Defs, requests: Defs) {
    forall name, target, depth: nat :: Mixed(responses, requests, name, target) ==>
      Expand(requests, requests[target], depth) == Expand(responses, responses[target], depth)
  }

  /** Under that condition a shared type means the same in both maps. */
  lemma {:induction false} SharedMeaning(responses: Defs, requests: Defs, name: string, depth: nat)
    requires Closed(responses) && Closed(requests) && MixedAgree(responses, requests)
    requires name in requests && name in responses && !Collides(responses, requests, name)
    ensures Expand(requests, requests[name], depth) == Expand(responses, responses[name], depth)
    decreases depth
  {
    var v := requests[name];
    forall target | target in Refs(v)
      ensures target in requests && target in responses
      ensures depth > 0 ==> Expand(requests, requests[target], depth - 1) == Expand(responses, responses[target], depth - 1)
    {
      if depth > 0 {
        if Collides(responses, requests, target) {
          assert Mixed(responses, requests, name, target);
        } else {
          SharedMeaning(responses, requests, target, depth - 1);
        }
      }
    }
    RenamedMeansSame(requests, responses, map[], v, depth);
    NoRenames(v);
  }

  lemma {:induction false} NoRenames(v: Json)
    ensures RenameRefs(v, map[]) == v
  {
    Untouched(v, map[]);
  }

  /** Renaming changes a schema exactly when the schema uses a renamed name. */
  lemma {:induction false} Untouched(v: Json, renames: map<string, string>)
    requires forall name :: name in renames ==> name !in Refs(v)
    ensures RenameRefs(v, renames) == v
    decreases v
  {
    match v
    case Array(items) => UntouchedItems(items, renames);
    case Object(fields) => UntouchedFields(fields, renames);
    case _ =>
  }

  lemma {:induction false} UntouchedItems(items: Items, renames: map<string, string>)
    requires forall name :: name in renames ==> name !in ItemRefs(items)
    ensures RenameItems(items, renames) == items
    decreases items
  {
    match items
    case NoItem =>
    case Item(head, tail) =>
      Untouched(head, renames);
      UntouchedItems(tail, renames);
  }

  lemma {:induction false} UntouchedFields(fields: Fields, renames: map<string, string>)
    requires forall name :: name in renames ==> name !in FieldRefs(fields)
    ensures RenameFields(fields, renames) == fields
    decreases fields
  {
    match fields
    case NoField =>
    case Entry(key, val, rest) =>
      if key != REF {
        Untouched(val, renames);
      }
      UntouchedFields(rest, renames);
  }

  lemma {:induction false} ResponseMeaning(responses: Defs, requests: Defs, merged: Defs, v: Json, depth: nat)
    requires IsMerged(responses, requests, merged) && NoClash(responses, requests)
    requires Closed(responses) && Closed(requests) && MixedAgree(responses, requests)
    requires Refs(v) <= responses.Keys
    ensures Expand(merged, v, depth) == Expand(responses, v, depth)
    decreases depth
  {
    forall name | name in Refs(v)
      ensures name in merged && name in responses
      ensures depth > 0 ==> Expand(merged, merged[name], depth - 1) == Expand(responses, responses[name], depth - 1)
    {
      ResponseEntry(responses, requests, merged, name);
      if depth > 0 {
        if name in requests && !Collides(responses, requests, name) {
          RequestMeaning(responses, requests, merged, requests[name], depth - 1);
          SharedMeaning(responses, requests, name, depth - 1);
        } else {
          ResponseMeaning(responses, requests, merged, responses[name], depth - 1);
        }
      }
    }
    RenamedMeansSame(merged, responses, map[], v, depth);
    NoRenames(v);
  }

  /** Every response type means, at every depth, what it meant on its own. */
  ghost predicate ResponsesKept(responses: Defs, merged: Defs) {
    forall name, depth: nat :: name in responses && name in merged ==>
      Expand(merged, merged[name], depth) == Expand(responses, responses[name], depth)
  }

  /** Response types keep their meaning exactly when every renamed type that an unrenamed
      shared type refers to means the same read and written. */
  lemma ResponsesKeptIff(responses: Defs, requests: Defs, merged: Defs)
    requires IsMerged(responses, requests, merged) && NoClash(responses, requests)
    requires Closed(responses) && Closed(requests)
    ensures ResponsesKept(responses, merged) <==> MixedAgree(responses, requests)
  {
    if MixedAgree(responses, requests) {
      forall name, depth: nat | name in responses && name in merged
        ensures Expand(merged, merged[name], depth) == Expand(responses, responses[name], depth)
      {
        ResponseEntry(responses, requests, merged, name);
        if name in requests && !Collides(responses, requests, name) {
          RequestMeaning(responses, requests, merged, requests[name], depth);
          SharedMeaning(responses, requests, name, depth);
        } else {
          ResponseMeaning(responses, requests, merged, responses[name], depth);
        }
      }
    }
    if ResponsesKept(responses, merged) {
      forall name, target, depth: nat | Mixed(responses, requests, name, target)
        ensures Expand(requests, requests[target], depth) == Expand(responses, responses[target], depth)
      {
        ResponseEntry(responses, requests, merged, name);
        RequestsKeepTheirMeaning(responses, requests, merged, target, depth);
        assert Expand(merged, merged[name], depth + 1) == Expand(responses, responses[name], depth + 1);
        SameMeaningBelow(merged, responses, Renames(responses, requests), requests[name], depth, target);
      }
    }
  }

  /** Response schemas are published word for word exactly when no unrenamed shared type
      refers to a renamed one; then they keep their meaning too. */
  lemma ResponsesUntouchedIff(responses: Defs, requests: Defs, merged: Defs)
    requires IsMerged(responses, requests, merged) && NoClash(responses, requests)
    ensures (forall name :: name in responses ==> name in merged && merged[name] == responses[name])
       <==> (forall name, target :: !Mixed(responses, requests, name, target))
  {
    var renames := Renames(responses, requests);
    forall name | name in responses
      ensures name in merged
      ensures merged[name] == responses[name] <==> forall target :: !Mixed(responses, requests, name, target)
    {
      ResponseEntry(responses, requests, merged, name);
      if name in requests && !Collides(responses, requests, name) {
        if target :| Mixed(responses, requests, name, target) {
          RenamedAway(requests[name], renames, target);
        } else {
          forall t | t in renames
            ensures t !in Refs(requests[name])
          {
            assert !Mixed(responses, requests, name, t);
          }
          Untouched(requests[name], renames);
        }
      }
    }
  }

  /** A renamed schema no longer uses a renamed name, unless some other is renamed to it. */
  lemma RenamedAway(v: Json, renames: map<string, string>, target: string)
    requires target in renames && target in Refs(v)
    requires forall name :: name in renames ==> renames[name] == name + REQUEST_SUFFIX && name + REQUEST_SUFFIX !in renames
    ensures RenameRefs(v, renames) != v
  {
    RenamedRefs(v, renames);
    forall n | n in Refs(v)
      ensures Published(renames, n) != target
    {
      if n in renames {
        assert n + REQUEST_SUFFIX !in renames;
      }
    }
  }

  /** A response can change its meaning: `Automation` reads and writes alike, but refers
      to `Template`, which does not, so however the two are merged the response comes to
      describe what is read. */
  lemma ResponseMeaningCanChange() returns (responses: Defs, requests: Defs)
    ensures Closed(responses) && Closed(requests) && NoClash(responses, requests)
    ensures forall merged :: IsMerged(responses, requests, merged) ==> !ResponsesKept(responses, merged)
  {
    responses, requests := Disagreeing();
    forall merged | IsMerged(responses, requests, merged)
      ensures !ResponsesKept(responses, merged)
    {
      ResponsesKeptIff(responses, requests, merged);
    }
  }

  lemma Disagreeing() returns (responses: Defs, requests: Defs)
    ensures Closed(responses) && Closed(requests) && NoClash(responses, requests)
    ensures !MixedAgree(responses, requests)
  {
    var shared := Object(Entry(REF, RefTo("Template"), NoField));
    TargetOfRef("Template");
    assert Refs(shared) == {"Template"};
    var read, written := Scalar("read"), Scalar("written");
    responses := map["Automation" := shared, "Template" := written];
    requests := map["Automation" := shared, "Template" := read];
    assert Collides(responses, requests, "Template");
    assert |"Template" + REQUEST_SUFFIX| == 15;
    assert Mixed(responses, requests, "Automation", "Template");
    assert Expand(requests, requests["Template"], 0) == read;
    assert Expand(responses, responses["Template"], 0) == written;
  }
}
