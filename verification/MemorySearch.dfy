/**
  The memory store as an object, and its search. A query is cut into the suffixes of its
  text, the library proposes more sequences, and each of them is walked in the index, with
  the prefix of a structural analog behind it as long as there is no hit. The beam search and
  the structural analog come from a library: they are arbitrary functions here, and the store
  is walked in arbitrary order.
 */
module MemoryStores {
  import opened Wrappers
  import opened Text
  import opened Memory
  import opened MemoryHistories

  datatype Mutation = Mutation(id: string, scope: string, text: string, relatedID: string, relationship: string, metadataID: string)

  /** The document a mutation describes. */
  function NewRecord(abc: Alphabet, m: Mutation): (r: Result<Record, MemoryError>)
    ensures r.Ok? ==> Tokens(abc, r.value.text) != [] && r.value.id != "" && r.value.scope != ""
  {
    var record := Record(TrimSpace(m.id), TrimSpace(m.scope), TrimSpace(m.text));
    if record.id == "" then Err(NoID)
    else if record.scope == "" then Err(NoScope)
    else if Tokens(abc, record.text) == [] then Err(EmptyText)
    else Ok(record)
  }

  /**
    What a mutation stores is read back under the mutation's own ID and scope, unless an ID
    with its path was deleted before.
   */
  lemma MutationIsReadBack(abc: Alphabet, history: seq<Change>, m: Mutation)
    requires NewRecord(abc, m).Ok?
    ensures var record := Record(TrimSpace(m.id), TrimSpace(m.scope), TrimSpace(m.text));
            Lookup(abc, Replay(abc, history + [Change.PutDocument(record)]), m.id, m.scope)
            == if WasDeleted(abc, history, m.id) then Err(NotFound) else Ok(record)
  {
    TrimSpaceIsIdempotent(m.id);
    TrimSpaceIsIdempotent(m.scope);
    PutIsReadBack(abc, history, NewRecord(abc, m).value);
    assert Path(abc, TrimSpace(m.id)) == Path(abc, m.id);
  }

  function NewRelation(m: Mutation): Result<Relation, MemoryError> {
    var fromID, toID, kind := TrimSpace(m.id), TrimSpace(m.relatedID), TrimSpace(m.relationship);
    var id := if TrimSpace(m.metadataID) == "" then fromID + ":" + kind + ":" + toID else TrimSpace(m.metadataID);
    if TrimSpace(m.scope) == "" then Err(NoScope)
    else if fromID == "" || toID == "" then Err(NoEndpoints)
    else if kind == "" then Err(NoRelationship)
    else Ok(Relation(id, TrimSpace(m.scope), fromID, toID, kind))
  }

  /** What a relationship's mutation must have: a scope, two endpoints and a kind. */
  predicate DescribesRelationship(m: Mutation) {
    TrimSpace(m.scope) != "" && TrimSpace(m.id) != "" && TrimSpace(m.relatedID) != "" && TrimSpace(m.relationship) != ""
  }

  predicate IsRelationship(m: Mutation) {
    TrimSpace(m.relationship) != "" || TrimSpace(m.relatedID) != ""
  }

  /** A document found under a document key. */
  datatype Hit = Hit(key: string, record: Record)

  predicate MatchesScope(scope: string, queryScope: string) {
    TrimSpace(queryScope) == "" || scope == TrimSpace(queryScope)
  }

  /** The key leads to a document that may be shown: stored, not deleted, in scope. */
  predicate Eligible(abc: Alphabet, forest: Forest, scope: string, key: string, record: Record) {
    key != "" && GetDocument(abc, forest, key) == Ok(record) && MatchesScope(record.scope, scope)
  }

  predicate HasHit(hits: seq<Hit>, key: string) {
    exists hit <- hits :: hit.key == key
  }

  /** The key is the document or relationship key of an index key under the prefix. */
  ghost predicate FromPrefix(forest: Forest, prefix: string, key: string) {
    exists k <- forest :: prefix <= k && DocumentKeyFromSequenceIndex(k) == key
  }

  /** Eligible documents from pairwise different document keys. */
  ghost predicate HitsOk(abc: Alphabet, forest: Forest, scope: string, hits: seq<Hit>) {
    && (forall hit <- hits :: Eligible(abc, forest, scope, hit.key, hit.record))
    && (forall i, j :: 0 <= i < j < |hits| ==> hits[i].key != hits[j].key)
  }

  /** Every eligible document under the prefix is among the hits. */
  ghost predicate Covered(abc: Alphabet, forest: Forest, scope: string, prefix: string, hits: seq<Hit>) {
    forall k :: k in forest && prefix <= k ==> CoveredAt(abc, forest, scope, k, hits)
  }

  predicate CoveredAt(abc: Alphabet, forest: Forest, scope: string, k: string, hits: seq<Hit>) {
    var key := DocumentKeyFromSequenceIndex(k);
    key != "" && GetDocument(abc, forest, key).Ok? && MatchesScope(GetDocument(abc, forest, key).value.scope, scope) ==> HasHit(hits, key)
  }

  lemma MoreHits(abc: Alphabet, forest: Forest, scope: string, hits: seq<Hit>, hit: Hit)
    requires HitsOk(abc, forest, scope, hits) && !HasHit(hits, hit.key) && Eligible(abc, forest, scope, hit.key, hit.record)
    ensures HitsOk(abc, forest, scope, hits + [hit])
    ensures forall key :: HasHit(hits + [hit], key) <==> HasHit(hits, key) || key == hit.key
  {
    var more := hits + [hit];
    forall i, j | 0 <= i < j < |more| ensures more[i].key != more[j].key {
      assert more[i] in hits;
    }
    forall key ensures HasHit(more, key) <==> HasHit(hits, key) || key == hit.key {
      assert hit in more;
      if HasHit(hits, key) {
        var h :| h in hits && h.key == key;
        assert h in more;
      }
    }
  }

  lemma HitsStay(abc: Alphabet, forest: Forest, scope: string, prefix: string, before: seq<Hit>, hits: seq<Hit>)
    requires before <= hits && Covered(abc, forest, scope, prefix, before)
    ensures Covered(abc, forest, scope, prefix, hits)
  {
    forall k | k in forest && prefix <= k ensures CoveredAt(abc, forest, scope, k, hits) {
      assert CoveredAt(abc, forest, scope, k, before);
      assert forall hit :: hit in before ==> hit in hits;
    }
  }

  /** The hits from the n-th on were found under the prefix. */
  ghost predicate HitsFrom(forest: Forest, prefix: string, n: nat, hits: seq<Hit>) {
    forall i :: n <= i < |hits| ==> FromPrefix(forest, prefix, hits[i].key)
  }

  /** In the middle of a walk: `todo` are the keys under the prefix that are still to be visited. */
  ghost predicate Walking(abc: Alphabet, forest: Forest, scope: string, prefix: string, before: seq<Hit>, hits: seq<Hit>, todo: set<string>) {
    && before <= hits && HitsOk(abc, forest, scope, hits) && HitsFrom(forest, prefix, |before|, hits)
    && (forall k <- todo :: k in forest && prefix <= k)
    && (forall k :: k in forest && prefix <= k && k !in todo ==> CoveredAt(abc, forest, scope, k, hits))
  }

  lemma WalkPast(abc: Alphabet, forest: Forest, scope: string, prefix: string, before: seq<Hit>, hits: seq<Hit>, todo: set<string>, k: string)
    requires Walking(abc, forest, scope, prefix, before, hits, todo) && CoveredAt(abc, forest, scope, k, hits)
    ensures Walking(abc, forest, scope, prefix, before, hits, todo - {k})
  {
  }

  lemma WalkInto(abc: Alphabet, forest: Forest, scope: string, prefix: string, before: seq<Hit>, hits: seq<Hit>, todo: set<string>, k: string, hit: Hit)
    requires Walking(abc, forest, scope, prefix, before, hits, todo) && k in todo && DocumentKeyFromSequenceIndex(k) == hit.key
    requires !HasHit(hits, hit.key) && Eligible(abc, forest, scope, hit.key, hit.record)
    ensures Walking(abc, forest, scope, prefix, before, hits + [hit], todo - {k})
  {
    MoreHits(abc, forest, scope, hits, hit);
    assert FromPrefix(forest, prefix, hit.key);
    forall l | l in forest && prefix <= l && l !in todo - {k} ensures CoveredAt(abc, forest, scope, l, hits + [hit]) {
      assert l != k ==> CoveredAt(abc, forest, scope, l, hits);
    }
  }

  /** A relationship found under a relationship key. */
  datatype Link = Link(key: string, relation: Relation)

  /** The key leads to a relationship in scope. Tombstones are not looked at. */
  predicate Linkable(forest: Forest, scope: string, key: string, relation: Relation) {
    key != "" && key in forest && DecodeRelationship(forest[key]) == Some(relation) && MatchesScope(relation.scope, scope)
  }

  predicate HasLink(links: seq<Link>, key: string) {
    exists link <- links :: link.key == key
  }

  /** Relationships in scope from pairwise different relationship keys. */
  ghost predicate LinksOk(forest: Forest, scope: string, links: seq<Link>) {
    && (forall link <- links :: Linkable(forest, scope, link.key, link.relation))
    && (forall i, j :: 0 <= i < j < |links| ==> links[i].key != links[j].key)
  }

  /** The links from the n-th on were found under the prefix. */
  ghost predicate LinksFrom(forest: Forest, prefix: string, n: nat, links: seq<Link>) {
    forall i :: n <= i < |links| ==> FromPrefix(forest, prefix, links[i].key)
  }

  /** In the middle of a walk over a relationship index. */
  ghost predicate Linking(forest: Forest, scope: string, prefix: string, before: seq<Link>, links: seq<Link>, todo: set<string>) {
    && before <= links && LinksOk(forest, scope, links) && LinksFrom(forest, prefix, |before|, links)
    && (forall k <- todo :: k in forest && prefix <= k)
    && (forall k :: k in forest && prefix <= k && k !in todo ==> LinkedAt(forest, scope, k, links))
  }

  lemma LinkPast(forest: Forest, scope: string, prefix: string, before: seq<Link>, links: seq<Link>, todo: set<string>, k: string)
    requires Linking(forest, scope, prefix, before, links, todo) && LinkedAt(forest, scope, k, links)
    ensures Linking(forest, scope, prefix, before, links, todo - {k})
  {
  }

  lemma LinkInto(forest: Forest, scope: string, prefix: string, before: seq<Link>, links: seq<Link>, todo: set<string>, k: string, link: Link)
    requires Linking(forest, scope, prefix, before, links, todo) && k in todo && RelationshipKeyFromIndex(k) == link.key
    requires !HasLink(links, link.key) && Linkable(forest, scope, link.key, link.relation)
    ensures Linking(forest, scope, prefix, before, links + [link], todo - {k})
  {
    MoreLinks(forest, scope, links, link);
    assert FromPrefix(forest, prefix, link.key);
    forall l | l in forest && prefix <= l && l !in todo - {k} ensures LinkedAt(forest, scope, l, links + [link]) {
      assert l != k ==> LinkedAt(forest, scope, l, links);
    }
  }

  predicate LinkedAt(forest: Forest, scope: string, k: string, links: seq<Link>) {
    var key := RelationshipKeyFromIndex(k);
    (key != "" && key in forest && DecodeRelationship(forest[key]).Some? && MatchesScope(DecodeRelationship(forest[key]).value.scope, scope))
    ==> HasLink(links, key)
  }

  /** Every relationship in scope under the prefix is among the links. */
  ghost predicate AllLinked(forest: Forest, scope: string, prefix: string, links: seq<Link>) {
    forall k :: k in forest && prefix <= k ==> LinkedAt(forest, scope, k, links)
  }

  lemma MoreLinks(forest: Forest, scope: string, links: seq<Link>, link: Link)
    requires LinksOk(forest, scope, links) && !HasLink(links, link.key) && Linkable(forest, scope, link.key, link.relation)
    ensures LinksOk(forest, scope, links + [link])
    ensures forall key :: HasLink(links + [link], key) <==> HasLink(links, key) || key == link.key
  {
    var more := links + [link];
    forall i, j | 0 <= i < j < |more| ensures more[i].key != more[j].key {
      assert more[i] in links;
    }
    forall key ensures HasLink(more, key) <==> HasLink(links, key) || key == link.key {
      assert link in more;
      if HasLink(links, key) {
        var l :| l in links && l.key == key;
        assert l in more;
      }
    }
  }

  lemma LinksStay(forest: Forest, scope: string, prefix: string, before: seq<Link>, links: seq<Link>)
    requires before <= links && AllLinked(forest, scope, prefix, before)
    ensures AllLinked(forest, scope, prefix, links)
  {
    forall k | k in forest && prefix <= k ensures LinkedAt(forest, scope, k, links) {
      assert LinkedAt(forest, scope, k, before);
      assert forall link :: link in before ==> link in links;
    }
  }

  /** What a search returns. */
  datatype Answer = Answer(documents: seq<Hit>, relationships: seq<Link>)

  /** What the search takes from elsewhere: the paths of a beam search, and the key most like a given one. */
  datatype Library = Library(beams: string -> seq<string>, closest: string -> Option<string>)

  predicate IsCandidate(sequences: seq<string>, lib: Library, c: string) {
    exists s <- sequences :: c == s || c in lib.beams(s)
  }

  lemma OneMoreSequence(sequences: seq<string>, lib: Library, s: string, c: string)
    ensures IsCandidate(sequences + [s], lib, c) <==> IsCandidate(sequences, lib, c) || c == s || c in lib.beams(s)
  {
    assert s in sequences + [s];
    assert forall t :: t in sequences + [s] <==> t in sequences || t == s;
  }

  /** The key was found under a candidate's own prefix, or under that of its structural analog. */
  ghost predicate HitFrom(forest: Forest, sequences: seq<string>, lib: Library, key: string) {
    exists c :: IsCandidate(sequences, lib, c) && FoundNear(forest, lib, c, key)
  }

  ghost predicate FoundNear(forest: Forest, lib: Library, c: string, key: string) {
    || FromPrefix(forest, SequenceIndexPrefix(c), key)
    || (lib.closest(SequenceIndexPrefix(c)).Some? && FromPrefix(forest, lib.closest(SequenceIndexPrefix(c)).value, key))
  }

  ghost predicate LinkFrom(forest: Forest, sequences: seq<string>, lib: Library, key: string) {
    exists c :: IsCandidate(sequences, lib, c) && FromPrefix(forest, RelationshipIndexPrefix(c), key)
  }

  /** The library proposes nothing. */
  ghost predicate Quiet(lib: Library) {
    forall s :: lib.beams(s) == [] && lib.closest(s) == None
  }

  predicate NoRepeats(xs: seq<string>) {
    forall i, j :: 0 <= i < j < |xs| ==> xs[i] != xs[j]
  }

  method AppendUnique(xs: seq<string>, x: string) returns (ys: seq<string>)
    requires NoRepeats(xs)
    ensures NoRepeats(ys) && xs <= ys && forall y :: y in ys <==> y in xs || y == x
  {
    ys := if x in xs then xs else xs + [x];
  }

  /** Every sequence and everything its beam search proposes, each once. */
  method Candidates(sequences: seq<string>, lib: Library) returns (candidates: seq<string>)
    ensures NoRepeats(candidates) && forall c :: c in candidates <==> IsCandidate(sequences, lib, c)
  {
    candidates := [];
    for i := 0 to |sequences|
      invariant NoRepeats(candidates) && forall c :: c in candidates <==> IsCandidate(sequences[..i], lib, c)
    {
      var paths := lib.beams(sequences[i]);
      ghost var before := candidates;
      candidates := AppendUnique(candidates, sequences[i]);
      for j := 0 to |paths|
        invariant NoRepeats(candidates)
        invariant forall c :: c in candidates <==> c in before || c == sequences[i] || c in paths[..j]
      {
        candidates := AppendUnique(candidates, paths[j]);
        assert paths[..j + 1] == paths[..j] + [paths[j]];
      }
      assert paths[..|paths|] == paths && sequences[..i + 1] == sequences[..i] + [sequences[i]];
      forall c ensures c in candidates <==> IsCandidate(sequences[..i] + [sequences[i]], lib, c) {
        OneMoreSequence(sequences[..i], lib, sequences[i], c);
      }
    }
    assert sequences[..|sequences|] == sequences;
  }

  class MemoryStore {
    const abc: Alphabet
    var forest: map<string, Value>
    ghost var history: seq<Change>

    ghost predicate Valid()
      reads this
    {
      Sane(abc) && forest == Replay(abc, history)
    }

    constructor (abc: Alphabet)
      requires Sane(abc)
      ensures Valid() && this.abc == abc && history == []
    {
      this.abc, forest, history := abc, map[], [];
    }

    ghost method Record(c: Change)
      requires Sane(abc) && forest == Apply(abc, Replay(abc, history), c)
      modifies `history
      ensures Valid() && history == old(history) + [c]
    {
      history := history + [c];
      assert history[..|history| - 1] == old(history);
    }

    /** Marks the index keys of a document, longest suffix first. */
    method TrainDocument(text: string, documentKey: string)
      modifies `forest
      ensures forest == old(forest) + Marks(KeysFor(Sequences(abc, text), documentKey))
    {
      var sequences := Sequences(abc, text);
      for i := 0 to |sequences|
        invariant forest == old(forest) + Marks(KeysFor(sequences[..i], documentKey))
      {
        var key := SequenceIndexKey(sequences[i], documentKey);
        assert sequences[..i + 1] == sequences[..i] + [sequences[i]];
        assert KeysFor(sequences[..i + 1], documentKey) == KeysFor(sequences[..i], documentKey) + {key};
        MarkOneMore(old(forest), KeysFor(sequences[..i], documentKey), key);
        forest := forest[key := Mark];
      }
      assert sequences[..|sequences|] == sequences;
    }

    method TrainRelationship(text: string, relationshipKey: string)
      modifies `forest
      ensures forest == old(forest) + Marks(RelationshipKeysFor(Sequences(abc, text), relationshipKey))
    {
      var sequences := Sequences(abc, text);
      for i := 0 to |sequences|
        invariant forest == old(forest) + Marks(RelationshipKeysFor(sequences[..i], relationshipKey))
      {
        var key := RELATIONSHIP_INDEX + (sequences[i] + "/" + relationshipKey);
        assert sequences[..i + 1] == sequences[..i] + [sequences[i]];
        assert RelationshipKeysFor(sequences[..i + 1], relationshipKey) == RelationshipKeysFor(sequences[..i], relationshipKey) + {key};
        MarkOneMore(old(forest), RelationshipKeysFor(sequences[..i], relationshipKey), key);
        forest := forest[key := Mark];
      }
      assert sequences[..|sequences|] == sequences;
    }

    method PutDocument(m: Mutation) returns (error: Option<MemoryError>)
      requires Valid()
      modifies this
      ensures Valid()
      ensures error.None? <==> TrimSpace(m.id) != "" && TrimSpace(m.scope) != "" && Tokens(abc, TrimSpace(m.text)) != []
      ensures error.None? ==>
                history == old(history) + [Change.PutDocument(Memory.Record(TrimSpace(m.id), TrimSpace(m.scope), TrimSpace(m.text)))]
      ensures error.Some? ==>
                && history == old(history)
                && error.value == if TrimSpace(m.id) == "" then NoID else if TrimSpace(m.scope) == "" then NoScope else EmptyText
    {
      var record := NewRecord(abc, m);
      if record.Err? {
        return Some(record.error);
      }
      var documentKey := DocumentKey(abc, record.value.scope, record.value.id);
      forest := forest[documentKey := Document(record.value)];
      forest := forest[DocumentIndexKey(abc, record.value.id) := KeyValue(documentKey)];
      TrainDocument(record.value.text, documentKey);
      Record(Change.PutDocument(record.value));
      error := None;
    }

    method PutRelationship(m: Mutation) returns (error: Option<MemoryError>)
      requires Valid()
      modifies this
      ensures Valid()
      ensures error.None? <==> DescribesRelationship(m)
      ensures error.None? ==>
                && |history| == |old(history)| + 1 && old(history) <= history && history[|old(history)|].PutRelationship?
                && var relation := history[|old(history)|].relation;
                && relation.scope == TrimSpace(m.scope) && relation.relationship == TrimSpace(m.relationship)
                && relation.fromID == TrimSpace(m.id) && relation.toID == TrimSpace(m.relatedID)
                && (TrimSpace(m.metadataID) != "" ==> relation.id == TrimSpace(m.metadataID))
                && (TrimSpace(m.metadataID) == "" ==> relation.id == relation.fromID + ":" + relation.relationship + ":" + relation.toID)
      ensures error.Some? ==>
                && history == old(history)
                && error.value == if TrimSpace(m.scope) == "" then NoScope
                                  else if TrimSpace(m.id) == "" || TrimSpace(m.relatedID) == "" then NoEndpoints
                                  else NoRelationship
    {
      var relation := NewRelation(m);
      if relation.Err? {
        return Some(relation.error);
      }
      var key := RelationshipKey(abc, relation.value.scope, relation.value.id);
      forest := forest[key := Related(relation.value)];
      TrainRelationship(relation.value.fromID + " " + relation.value.toID, key);
      Record(Change.PutRelationship(relation.value));
      error := None;
    }

    method Put(m: Mutation) returns (error: Option<MemoryError>)
      requires Valid()
      modifies this
      ensures Valid()
      ensures error.Some? ==> history == old(history)
      ensures if TrimSpace(m.relationship) != "" || TrimSpace(m.relatedID) != "" then error.None? <==> DescribesRelationship(m)
              else error.None? <==> TrimSpace(m.id) != "" && TrimSpace(m.scope) != "" && Tokens(abc, TrimSpace(m.text)) != []
      ensures error.None? ==>
                && |history| == |old(history)| + 1 && old(history) <= history
                && (history[|old(history)|].PutRelationship? <==> TrimSpace(m.relationship) != "" || TrimSpace(m.relatedID) != "")
                && (history[|old(history)|].PutDocument? <==> TrimSpace(m.relationship) == "" == TrimSpace(m.relatedID))
    {
      if IsRelationship(m) {
        error := PutRelationship(m);
      } else {
        error := PutDocument(m);
      }
    }

    /** Sets the tombstone of an ID that the document index knows. */
    method Delete(id: string) returns (error: Option<MemoryError>)
      requires Valid()
      modifies this
      ensures Valid()
      ensures error.None? <==> TrimSpace(id) != "" && exists c <- old(history) :: PutsID(abc, c, Path(abc, id))
      ensures error.None? ==> history == old(history) + [Change.Delete(id)]
      ensures error.Some? ==> history == old(history) && error.value == if TrimSpace(id) == "" then NoID else NotFound
    {
      KnownIff(abc, history, id);
      var key := FindKey(abc, forest, id, "");
      if key.Err? {
        return Some(key.error);
      }
      forest := forest[TombstoneKey(abc, id) := Mark];
      Record(Change.Delete(id));
      error := None;
    }

    ghost predicate Finds(id: string, scope: string, record: Memory.Record)
      reads this
    {
      if TrimSpace(scope) != "" then Readable(abc, history, DocumentKey(abc, TrimSpace(scope), TrimSpace(id)), record)
      else LastIsReadable(abc, history, Path(abc, TrimSpace(id)), record)
    }

    /** The document that can be read: under the key of scope and ID, or, by ID alone, the one put last with the ID's path. */
    method Get(id: string, scope: string) returns (r: Result<Memory.Record, MemoryError>)
      requires Valid()
      ensures r.Err? ==> r.error == if TrimSpace(id) == "" then NoID else NotFound
      ensures TrimSpace(id) != "" && TrimSpace(scope) != "" ==>
                forall record :: r == Ok(record) <==> Readable(abc, history, DocumentKey(abc, TrimSpace(scope), TrimSpace(id)), record)
      ensures TrimSpace(id) != "" && TrimSpace(scope) == "" ==>
                forall record :: r == Ok(record) <==> LastIsReadable(abc, history, Path(abc, TrimSpace(id)), record)
      ensures r.Ok? ==> TrimSpace(id) != "" && forall c <- history :: c.Delete? ==> Path(abc, c.id) != Path(abc, r.value.id)
    {
      r := Lookup(abc, forest, id, scope);
      forall record | TrimSpace(id) != "" ensures r == Ok(record) <==> Finds(id, scope, record) {
        if TrimSpace(scope) != "" {
          FoundByScope(abc, history, id, scope, record);
        } else {
          FoundByID(abc, history, id, scope, record);
        }
      }
      if r.Ok? {
        forall c | c in history && c.Delete? ensures Path(abc, c.id) != Path(abc, r.value.id) {
          var i :| 0 <= i < |history| && history[i] == c;
          DeletedIsNeverRead(abc, history, i, id, scope);
        }
      }
    }

    /** Walks the keys under a prefix, in any order, and adds the eligible documents up to the limit. */
    method WalkDocuments(before: seq<Hit>, scope: string, limit: nat, prefix: string) returns (hits: seq<Hit>)
      requires |before| < limit && HitsOk(abc, forest, scope, before)
      ensures before <= hits && |hits| <= limit && HitsOk(abc, forest, scope, hits)
      ensures |hits| < limit ==> Covered(abc, forest, scope, prefix, hits)
      ensures HitsFrom(forest, prefix, |before|, hits)
    {
      hits := before;
      var todo := set k | k in forest && prefix <= k;
      while todo != {}
        invariant |hits| < limit && Walking(abc, forest, scope, prefix, before, hits, todo)
        decreases todo
      {
        var k :| k in todo;
        ghost var left := todo;
        todo := todo - {k};
        var key := DocumentKeyFromSequenceIndex(k);
        if key == "" || HasHit(hits, key) {
          WalkPast(abc, forest, scope, prefix, before, hits, left, k);
          continue;
        }
        var found := GetDocument(abc, forest, key);
        if found.Err? || !MatchesScope(found.value.scope, scope) {
          WalkPast(abc, forest, scope, prefix, before, hits, left, k);
          continue;
        }
        WalkInto(abc, forest, scope, prefix, before, hits, left, k, Hit(key, found.value));
        hits := hits + [Hit(key, found.value)];
        if |hits| >= limit {
          return;
        }
      }
    }

    /**
      The documents indexed under a sequence; those under its closest analog exactly when there
      is no hit at all, neither before nor under the sequence itself.
     */
    method CollectDocuments(before: seq<Hit>, scope: string, limit: nat, s: string, lib: Library) returns (hits: seq<Hit>)
      requires |before| < limit && HitsOk(abc, forest, scope, before)
      ensures before <= hits && |hits| <= limit && HitsOk(abc, forest, scope, hits)
      ensures |hits| < limit ==> Covered(abc, forest, scope, SequenceIndexPrefix(s), hits)
      ensures before != [] || !Covered(abc, forest, scope, SequenceIndexPrefix(s), []) ==>
                HitsFrom(forest, SequenceIndexPrefix(s), |before|, hits)
      ensures before == [] && Covered(abc, forest, scope, SequenceIndexPrefix(s), []) ==>
                match lib.closest(SequenceIndexPrefix(s))
                case None => hits == []
                case Some(analog) =>
                  HitsFrom(forest, analog, 0, hits) && (|hits| < limit ==> Covered(abc, forest, scope, analog, hits))
    {
      hits := WalkDocuments(before, scope, limit, SequenceIndexPrefix(s));
      if before == [] && hits != [] {
        FoundIsNotCovered(hits, scope, SequenceIndexPrefix(s));
      }
      if |hits| > 0 {
        return;
      }
      var analog := lib.closest(SequenceIndexPrefix(s));
      if analog.None? {
        return;
      }
      ghost var walked := hits;
      hits := WalkDocuments(hits, scope, limit, analog.value);
      HitsStay(abc, forest, scope, SequenceIndexPrefix(s), walked, hits);
    }

    lemma FoundIsNotCovered(hits: seq<Hit>, scope: string, prefix: string)
      requires hits != [] && HitsOk(abc, forest, scope, hits) && FromPrefix(forest, prefix, hits[0].key)
      ensures !Covered(abc, forest, scope, prefix, [])
    {
      var k :| k in forest && prefix <= k && DocumentKeyFromSequenceIndex(k) == hits[0].key;
      assert Eligible(abc, forest, scope, hits[0].key, hits[0].record);
      assert !CoveredAt(abc, forest, scope, k, []);
    }

    /** Walks the relationship index of a sequence, in any order, and adds what is in scope. */
    method CollectRelationships(before: seq<Link>, scope: string, s: string) returns (links: seq<Link>)
      requires LinksOk(forest, scope, before)
      ensures before <= links && LinksOk(forest, scope, links) && AllLinked(forest, scope, RelationshipIndexPrefix(s), links)
      ensures LinksFrom(forest, RelationshipIndexPrefix(s), |before|, links)
    {
      links := before;
      var prefix := RelationshipIndexPrefix(s);
      var todo := set k | k in forest && prefix <= k;
      while todo != {}
        invariant Linking(forest, scope, prefix, before, links, todo)
        decreases todo
      {
        var k :| k in todo;
        ghost var left := todo;
        todo := todo - {k};
        var key := RelationshipKeyFromIndex(k);
        if key == "" || HasLink(links, key) || key !in forest {
          LinkPast(forest, scope, prefix, before, links, left, k);
          continue;
        }
        var relation := DecodeRelationship(forest[key]);
        if relation.None? || !MatchesScope(relation.value.scope, scope) {
          LinkPast(forest, scope, prefix, before, links, left, k);
          continue;
        }
        LinkInto(forest, scope, prefix, before, links, left, k, Link(key, relation.value));
        links := links + [Link(key, relation.value)];
      }
    }

    ghost predicate Complete(scope: string, s: string, answer: Answer)
      reads this
    {
      && Covered(abc, forest, scope, SequenceIndexPrefix(s), answer.documents)
      && AllLinked(forest, scope, RelationshipIndexPrefix(s), answer.relationships)
    }

    /** Everything in the answer was found near a candidate. */
    ghost predicate Founded(sequences: seq<string>, lib: Library, answer: Answer)
      reads this
    {
      && (forall hit <- answer.documents :: HitFrom(forest, sequences, lib, hit.key))
      && (forall link <- answer.relationships :: LinkFrom(forest, sequences, lib, link.key))
    }

    lemma StillFounded(sequences: seq<string>, lib: Library, c: string, before: Answer, answer: Answer)
      requires Founded(sequences, lib, before) && IsCandidate(sequences, lib, c)
      requires before.documents <= answer.documents && before.relationships <= answer.relationships
      requires forall i :: |before.documents| <= i < |answer.documents| ==> FoundNear(forest, lib, c, answer.documents[i].key)
      requires LinksFrom(forest, RelationshipIndexPrefix(c), |before.relationships|, answer.relationships)
      ensures Founded(sequences, lib, answer)
    {
      forall hit | hit in answer.documents ensures HitFrom(forest, sequences, lib, hit.key) {
        var i :| 0 <= i < |answer.documents| && answer.documents[i] == hit;
        if i < |before.documents| {
          assert before.documents[i] == hit && hit in before.documents;
        }
      }
      forall link | link in answer.relationships ensures LinkFrom(forest, sequences, lib, link.key) {
        var i :| 0 <= i < |answer.relationships| && answer.relationships[i] == link;
        if i < |before.relationships| {
          assert before.relationships[i] == link && link in before.relationships;
        }
      }
    }

    method Run(sequences: seq<string>, scope: string, limit: nat, lib: Library) returns (answer: Answer)
      requires limit > 0
      ensures |answer.documents| <= limit && HitsOk(abc, forest, scope, answer.documents) && LinksOk(forest, scope, answer.relationships)
      ensures |answer.documents| < limit ==> forall s <- sequences :: Complete(scope, s, answer)
      ensures Founded(sequences, lib, answer)
    {
      var candidates := Candidates(sequences, lib);
      answer := Answer([], []);
      for i := 0 to |candidates|
        invariant |answer.documents| < limit && HitsOk(abc, forest, scope, answer.documents) && LinksOk(forest, scope, answer.relationships)
        invariant forall s <- candidates[..i] :: Complete(scope, s, answer)
        invariant Founded(sequences, lib, answer)
      {
        ghost var before := answer;
        var hits := CollectDocuments(answer.documents, scope, limit, candidates[i], lib);
        var links := CollectRelationships(answer.relationships, scope, candidates[i]);
        answer := Answer(hits, links);
        StillFounded(sequences, lib, candidates[i], before, answer);
        if |hits| >= limit {
          return;
        }
        forall s | s in candidates[..i] ensures Complete(scope, s, answer) {
          HitsStay(abc, forest, scope, SequenceIndexPrefix(s), before.documents, hits);
          LinksStay(forest, scope, RelationshipIndexPrefix(s), before.relationships, links);
        }
        assert candidates[..i + 1] == candidates[..i] + [candidates[i]];
      }
      assert candidates[..|candidates|] == candidates;
      forall s | s in sequences ensures s in candidates {
        assert IsCandidate(sequences, lib, s);
      }
    }

    /** The record can be read under the key and is in the query's scope, and a document that ends like the query was put under the key. */
    ghost predicate Due(text: string, scope: string, hit: Hit)
      reads this
    {
      && Readable(abc, history, hit.key, hit.record) && (TrimSpace(scope) == "" || hit.record.scope == TrimSpace(scope))
      && exists c <- history :: Puts(abc, c, hit.key) && EndsAlike(abc, text, c.record.text)
    }

    /** The relationship stands under the key and is in the query's scope, and one whose endpoints end like the query was put under the key. */
    ghost predicate LinkDue(text: string, scope: string, link: Link)
      reads this
    {
      && StandsUnder(abc, history, link.key, link.relation) && (TrimSpace(scope) == "" || link.relation.scope == TrimSpace(scope))
      && exists c <- history :: Relating(abc, c, link.key) && EndsAlike(abc, text, c.relation.fromID + " " + c.relation.toID)
    }

    /**
      At most `limit` documents, from different keys, in scope, and none of them ever deleted,
      and relationships in scope from different keys, whatever the library proposes. If there
      are fewer documents than the limit, then neither a document nor a relationship that is due
      is missing. When the library proposes nothing, nothing else is in the answer.
     */
    method Search(text: string, scope: string, limit: int, lib: Library) returns (r: Result<Answer, MemoryError>)
      requires Valid()
      ensures r.Err? <==> Tokens(abc, text) == []
      ensures r.Ok? ==> |r.value.documents| <= (if limit <= 0 then 8 else limit)
      ensures r.Ok? ==> forall i, j :: 0 <= i < j < |r.value.documents| ==> r.value.documents[i].key != r.value.documents[j].key
      ensures r.Ok? ==> forall i, j :: 0 <= i < j < |r.value.relationships| ==> r.value.relationships[i].key != r.value.relationships[j].key
      ensures r.Ok? && TrimSpace(scope) != "" ==>
                && (forall hit <- r.value.documents :: hit.record.scope == TrimSpace(scope))
                && (forall link <- r.value.relationships :: link.relation.scope == TrimSpace(scope))
      ensures r.Ok? ==> forall hit <- r.value.documents, c <- history :: c.Delete? ==> Path(abc, c.id) != Path(abc, hit.record.id)
      ensures r.Ok? && |r.value.documents| < (if limit <= 0 then 8 else limit) ==>
                && (forall hit :: Due(text, scope, hit) ==> hit in r.value.documents)
                && (forall link :: LinkDue(text, scope, link) ==> link in r.value.relationships)
      ensures r.Ok? && Quiet(lib) ==>
                && (forall hit <- r.value.documents :: Due(text, scope, hit))
                && (forall link <- r.value.relationships :: LinkDue(text, scope, link))
    {
      var most := if limit <= 0 then 8 else limit;
      if |Tokens(abc, text)| == 0 {
        return Err(EmptyText);
      }
      var answer := Run(Sequences(abc, text), scope, most, lib);
      r := Ok(answer);
      forall hit, c | hit in answer.documents && c in history && c.Delete? ensures Path(abc, c.id) != Path(abc, hit.record.id) {
        assert Eligible(abc, forest, scope, hit.key, hit.record);
        HitIsAlive(c, hit.record.id);
      }
      if |answer.documents| < most {
        forall hit | Due(text, scope, hit) ensures hit in answer.documents {
          DueIsFound(text, scope, hit, answer);
        }
        forall link | LinkDue(text, scope, link) ensures link in answer.relationships {
          LinkDueIsFound(text, scope, link, answer);
        }
      }
      if Quiet(lib) {
        forall hit | hit in answer.documents ensures Due(text, scope, hit) {
          FoundIsDue(text, scope, lib, hit);
        }
        forall link | link in answer.relationships ensures LinkDue(text, scope, link) {
          LinkFoundIsDue(text, scope, lib, link);
        }
      }
    }

    lemma HitIsAlive(c: Change, id: string)
      requires Valid() && c in history && c.Delete? && !Tombstoned(abc, forest, id)
      ensures Path(abc, c.id) != Path(abc, id)
    {
      TombstonedIff(abc, history, id);
    }

    /** What is due is indexed under a suffix of the query. */
    lemma DueIsIndexed(text: string, scope: string, hit: Hit) returns (s: string)
      requires Valid() && Due(text, scope, hit)
      ensures s in Sequences(abc, text) && '/' !in s && SequenceIndexKey(s, hit.key) in forest
      ensures hit.key != "" && GetDocument(abc, forest, hit.key) == Ok(hit.record)
    {
      var c :| c in history && Puts(abc, c, hit.key) && EndsAlike(abc, text, c.record.text);
      SharedSuffixIff(abc, text, c.record.text);
      s :| s in Sequences(abc, text) && s in Sequences(abc, c.record.text);
      SequencesHaveNoSlash(abc, text, s);
      assert Indexes(abc, c, s);
      IndexIsExact(abc, history, s, SequenceIndexKey(s, hit.key));
      FoundIffCurrent(abc, history, Path(abc, c.record.scope) + "/" + Path(abc, c.record.id), hit.record);
    }

    lemma DueIsFound(text: string, scope: string, hit: Hit, answer: Answer)
      requires Valid() && Due(text, scope, hit) && HitsOk(abc, forest, scope, answer.documents)
      requires forall s <- Sequences(abc, text) :: Complete(scope, s, answer)
      ensures hit in answer.documents
    {
      var s := DueIsIndexed(text, scope, hit);
      ParserInvertsBuilder(s, hit.key);
      assert Complete(scope, s, answer);
      assert CoveredAt(abc, forest, scope, SequenceIndexKey(s, hit.key), answer.documents);
      var other :| other in answer.documents && other.key == hit.key;
      assert Eligible(abc, forest, scope, other.key, other.record);
    }

    lemma LinkDueIsIndexed(text: string, scope: string, link: Link) returns (s: string)
      requires Valid() && LinkDue(text, scope, link)
      ensures s in Sequences(abc, text) && '/' !in s && RELATIONSHIP_INDEX + (s + "/" + link.key) in forest
      ensures link.key != "" && link.key in forest && forest[link.key] == Related(link.relation)
    {
      var c :| c in history && Relating(abc, c, link.key) && EndsAlike(abc, text, c.relation.fromID + " " + c.relation.toID);
      SharedSuffixIff(abc, text, c.relation.fromID + " " + c.relation.toID);
      s :| s in Sequences(abc, text) && s in Sequences(abc, c.relation.fromID + " " + c.relation.toID);
      SequencesHaveNoSlash(abc, text, s);
      RelationIsIndexed(abc, history, c, s);
      RelationKeyHoldsStanding(abc, history, Path(abc, c.relation.scope) + "/" + Path(abc, c.relation.id), link.relation);
    }

    lemma LinkDueIsFound(text: string, scope: string, link: Link, answer: Answer)
      requires Valid() && LinkDue(text, scope, link) && LinksOk(forest, scope, answer.relationships)
      requires forall s <- Sequences(abc, text) :: Complete(scope, s, answer)
      ensures link in answer.relationships
    {
      var s := LinkDueIsIndexed(text, scope, link);
      RelationshipParserInvertsBuilder(s, link.key);
      assert Complete(scope, s, answer);
      assert LinkedAt(forest, scope, RELATIONSHIP_INDEX + (s + "/" + link.key), answer.relationships);
      var other :| other in answer.relationships && other.key == link.key;
      assert Linkable(forest, scope, other.key, other.relation);
    }

    lemma FoundIsDue(text: string, scope: string, lib: Library, hit: Hit)
      requires Valid() && Quiet(lib) && HitFrom(forest, Sequences(abc, text), lib, hit.key) && Eligible(abc, forest, scope, hit.key, hit.record)
      ensures Due(text, scope, hit)
    {
      var s :| IsCandidate(Sequences(abc, text), lib, s) && FoundNear(forest, lib, s, hit.key);
      SequencesHaveNoSlash(abc, text, s);
      assert hit.key in Visited(forest, s);
      WalkVisitsPutDocuments(abc, history, s, hit.key);
      var c :| c in history && Indexes(abc, c, s) && hit.key == KeyOf(abc, c);
      SharedSuffixIff(abc, text, c.record.text);
      FoundIffCurrent(abc, history, Path(abc, c.record.scope) + "/" + Path(abc, c.record.id), hit.record);
      assert Puts(abc, c, hit.key);
    }

    lemma LinkFoundIsDue(text: string, scope: string, lib: Library, link: Link)
      requires Valid() && Quiet(lib) && LinkFrom(forest, Sequences(abc, text), lib, link.key) && Linkable(forest, scope, link.key, link.relation)
      ensures LinkDue(text, scope, link)
    {
      var s :| IsCandidate(Sequences(abc, text), lib, s) && FromPrefix(forest, RelationshipIndexPrefix(s), link.key);
      SequencesHaveNoSlash(abc, text, s);
      var k :| k in forest && RelationshipIndexPrefix(s) <= k && DocumentKeyFromSequenceIndex(k) == link.key;
      RelationIndexIsExact(abc, history, s, k);
      var c :| c in history && Relates(abc, c, s) && k == RelationshipIndexPrefix(s) + RelationKeyOf(abc, c);
      RelationIndexKey(s, RelationKeyOf(abc, c));
      RelationshipParserInvertsBuilder(s, RelationKeyOf(abc, c));
      SharedSuffixIff(abc, text, c.relation.fromID + " " + c.relation.toID);
      RelationKeyHoldsStanding(abc, history, Path(abc, c.relation.scope) + "/" + Path(abc, c.relation.id), link.relation);
      assert Relating(abc, c, link.key);
    }
  }
}
