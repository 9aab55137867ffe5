/**
  What the memory store holds, told from the changes made so far and nothing else: which
  record a document key and a relationship key lead to, and which changes the two suffix
  indexes lead to.
 */
module MemoryHistories {
  import opened Wrappers
  import opened Text
  import opened Memory

  // ----- Sharing a suffix is sharing the last word -----

  /** Both texts have words, and the same last word. */
  predicate EndsAlike(abc: Alphabet, a: string, b: string) {
    var us, vs := Tokens(abc, a), Tokens(abc, b);
    us != [] && vs != [] && us[|us| - 1] == vs[|vs| - 1]
  }

  /** Two texts have a common suffix in the index exactly when they end in the same word. */
  lemma SharedSuffixIff(abc: Alphabet, a: string, b: string)
    requires Sane(abc)
    ensures (exists s <- Sequences(abc, a) :: s in Sequences(abc, b)) <==> EndsAlike(abc, a, b)
  {
    var us, vs := Tokens(abc, a), Tokens(abc, b);
    if s :| s in Sequences(abc, a) && s in Sequences(abc, b) {
      var i :| 0 <= i < |us| && s == Join(us[i..], '_');
      var j :| 0 <= j < |vs| && s == Join(vs[j..], '_');
      SameTail(abc, us, vs, i, j);
    }
    if EndsAlike(abc, a, b) {
      var i, j := |us| - 1, |vs| - 1;
      assert us[i..] == [us[i]] == vs[j..];
      assert Sequences(abc, a)[i] == Join(us[i..], '_') && Sequences(abc, b)[j] == Join(vs[j..], '_');
      assert Sequences(abc, a)[i] in Sequences(abc, a) && Sequences(abc, b)[j] in Sequences(abc, b);
    }
  }

  lemma SameTail(abc: Alphabet, us: seq<string>, vs: seq<string>, i: nat, j: nat)
    requires Sane(abc) && (forall t <- us + vs :: WordOnly(abc, t)) && i < |us| && j < |vs| && Join(us[i..], '_') == Join(vs[j..], '_')
    ensures us[|us| - 1] == vs[|vs| - 1]
  {
    assert (forall t <- us[i..] :: t in us + vs) && (forall t <- vs[j..] :: t in us + vs);
    FieldsOfJoin(abc, us[i..]);
    FieldsOfJoin(abc, vs[j..]);
    assert us[|us| - 1] == us[i..][|us| - i - 1] && vs[|vs| - 1] == vs[j..][|vs| - j - 1];
  }

  // ----- Paths -----

  /** Nothing but underscores. */
  predicate Underscores(s: string) {
    forall c <- s :: c == '_'
  }

  lemma {:induction false} TrimLeftCuts(s: string) returns (l: string)
    ensures s == l + TrimUnderscoreLeft(s) && Underscores(l) && (TrimUnderscoreLeft(s) != "" ==> TrimUnderscoreLeft(s)[0] != '_')
  {
    l := "";
    if s != "" && s[0] == '_' {
      l := TrimLeftCuts(s[1..]);
      l := [s[0]] + l;
      assert s == [s[0]] + s[1..];
    }
  }

  lemma {:induction false} TrimRightCuts(s: string) returns (r: string)
    ensures s == TrimUnderscoreRight(s) + r && Underscores(r)
    ensures TrimUnderscoreRight(s) != "" ==> TrimUnderscoreRight(s)[|TrimUnderscoreRight(s)| - 1] != '_'
  {
    r := "";
    if s != "" && s[|s| - 1] == '_' {
      r := TrimRightCuts(s[..|s| - 1]);
      r := r + [s[|s| - 1]];
    }
  }

  /**
    A path is the trimmed value in lower case, with an underscore for every character of no
    word, and without the underscores at its two edges.
   */
  lemma PathCutsEdges(abc: Alphabet, value: string) returns (l: string, r: string)
    ensures var whole, path := l + Path(abc, value) + r, Path(abc, value);
            && |whole| == |TrimSpace(value)|
            && (forall i :: 0 <= i < |whole| ==>
                              var c := abc.lower(TrimSpace(value)[i]);
                              whole[i] == if abc.isWord(c) then c else '_')
            && Underscores(l) && Underscores(r) && (path != "" ==> path[0] != '_' && path[|path| - 1] != '_')
  {
    var kept := Kept(abc, TrimSpace(value));
    l := TrimLeftCuts(kept);
    r := TrimRightCuts(TrimUnderscoreLeft(kept));
    assert kept == l + Path(abc, value) + r;
  }

  // ----- Documents -----

  predicate Puts(abc: Alphabet, c: Change, key: string) {
    c.PutDocument? && KeyOf(abc, c) == key
  }

  /** The i-th change is the last put under the document key. */
  ghost predicate LastUnderKey(abc: Alphabet, history: seq<Change>, key: string, i: int) {
    0 <= i < |history| && Puts(abc, history[i], key) && forall j :: i < j < |history| ==> !Puts(abc, history[j], key)
  }

  /** The i-th change put the document that can be read now under the key: nothing replaced it and its ID's path was never deleted. */
  ghost predicate Current(abc: Alphabet, history: seq<Change>, key: string, i: int) {
    LastUnderKey(abc, history, key, i) && forall c <- history :: c.Delete? ==> Path(abc, c.id) != Path(abc, history[i].record.id)
  }

  /** The record is what the last put under the key stored. */
  ghost predicate PutLast(abc: Alphabet, history: seq<Change>, key: string, record: Record) {
    exists i :: LastUnderKey(abc, history, key, i) && history[i].record == record
  }

  /** The record can be read now under the key. */
  ghost predicate Readable(abc: Alphabet, history: seq<Change>, key: string, record: Record) {
    exists i :: Current(abc, history, key, i) && history[i].record == record
  }

  lemma PutLastOneMore(abc: Alphabet, front: seq<Change>, last: Change, key: string, record: Record)
    ensures PutLast(abc, front + [last], key, record)
            <==> if Puts(abc, last, key) then last.record == record else PutLast(abc, front, key, record)
  {
    var history, n := front + [last], |front|;
    assert history[n] == last && forall j :: 0 <= j < n ==> front[j] == history[j];
    forall i ensures LastUnderKey(abc, history, key, i) <==> if Puts(abc, last, key) then i == n else LastUnderKey(abc, front, key, i) {
      if i < n {
        assert LastUnderKey(abc, history, key, i) ==> !Puts(abc, history[n], key);
      }
    }
    if Puts(abc, last, key) {
      assert LastUnderKey(abc, history, key, n);
    }
  }

  lemma {:induction false} LatestPutIff(abc: Alphabet, history: seq<Change>, key: string, record: Record)
    ensures LatestPut(abc, history, key) == Some(record) <==> PutLast(abc, history, key, record)
  {
    if history != [] {
      var front, last := history[..|history| - 1], history[|history| - 1];
      assert history == front + [last];
      LatestPutIff(abc, front, key, record);
      PutLastOneMore(abc, front, last, key, record);
    }
  }

  lemma ReadableIff(abc: Alphabet, history: seq<Change>, key: string, record: Record)
    ensures Readable(abc, history, key, record) <==> PutLast(abc, history, key, record) && !WasDeleted(abc, history, record.id)
  {
    if PutLast(abc, history, key, record) && !WasDeleted(abc, history, record.id) {
      var i :| LastUnderKey(abc, history, key, i) && history[i].record == record;
      assert Current(abc, history, key, i);
    }
  }

  /** A document key leads to the one current document put under it. */
  lemma FoundIffCurrent(abc: Alphabet, history: seq<Change>, path: string, record: Record)
    ensures GetDocument(abc, Replay(abc, history), DOCUMENT_PREFIX + path) == Ok(record)
            <==> Readable(abc, history, DOCUMENT_PREFIX + path, record)
  {
    GetDocumentIsStored(abc, history, path);
    LatestPutIff(abc, history, DOCUMENT_PREFIX + path, record);
    ReadableIff(abc, history, DOCUMENT_PREFIX + path, record);
  }

  /** A run in which a document is still indexed by the last word of a text that it no longer has. */
  lemma OldSuffixesStay(abc: Alphabet, scope: string, id: string, first: string, second: string)
    requires Sane(abc)
    ensures var key, history := DocumentKey(abc, scope, id), [PutDocument(Record(id, scope, first)), PutDocument(Record(id, scope, second))];
            && Readable(abc, history, key, Record(id, scope, second))
            && forall s <- Sequences(abc, first) :: key in Visited(Replay(abc, history), s)
  {
    var key, history := DocumentKey(abc, scope, id), [PutDocument(Record(id, scope, first)), PutDocument(Record(id, scope, second))];
    assert Puts(abc, history[1], key) && Current(abc, history, key, 1);
    forall s | s in Sequences(abc, first) ensures key in Visited(Replay(abc, history), s) {
      SequencesHaveNoSlash(abc, first, s);
      assert history[0] in history && Indexes(abc, history[0], s) && key == KeyOf(abc, history[0]);
      WalkVisitsPutDocuments(abc, history, s, key);
    }
  }

  // ----- Reading -----

  predicate PutsID(abc: Alphabet, c: Change, path: string) {
    c.PutDocument? && Path(abc, c.record.id) == path
  }

  /** The i-th change is the last put of an ID with the path, in whatever scope. */
  ghost predicate LastWithID(abc: Alphabet, history: seq<Change>, path: string, i: int) {
    0 <= i < |history| && PutsID(abc, history[i], path) && forall j :: i < j < |history| ==> !PutsID(abc, history[j], path)
  }

  ghost predicate IndexedLast(abc: Alphabet, history: seq<Change>, path: string, key: string) {
    exists i :: LastWithID(abc, history, path, i) && KeyOf(abc, history[i]) == key
  }

  lemma IndexedOneMore(abc: Alphabet, front: seq<Change>, last: Change, path: string, key: string)
    ensures IndexedLast(abc, front + [last], path, key)
            <==> if PutsID(abc, last, path) then KeyOf(abc, last) == key else IndexedLast(abc, front, path, key)
  {
    var history, n := front + [last], |front|;
    assert history[n] == last && forall j :: 0 <= j < n ==> front[j] == history[j];
    forall i ensures LastWithID(abc, history, path, i) <==> if PutsID(abc, last, path) then i == n else LastWithID(abc, front, path, i) {
      if i < n {
        assert LastWithID(abc, history, path, i) ==> !PutsID(abc, history[n], path);
      }
    }
    if PutsID(abc, last, path) {
      assert LastWithID(abc, history, path, n);
    }
  }

  lemma {:induction false} LatestIndexedIff(abc: Alphabet, history: seq<Change>, path: string, key: string)
    ensures LatestIndexed(abc, history, path) == Some(key) <==> IndexedLast(abc, history, path, key)
  {
    if history != [] {
      var front, last := history[..|history| - 1], history[|history| - 1];
      assert history == front + [last];
      LatestIndexedIff(abc, front, path, key);
      IndexedOneMore(abc, front, last, path, key);
    }
  }

  /** By scope and ID a read finds what can be read under their document key. */
  lemma FoundByScope(abc: Alphabet, history: seq<Change>, id: string, scope: string, record: Record)
    requires TrimSpace(id) != "" && TrimSpace(scope) != ""
    ensures Lookup(abc, Replay(abc, history), id, scope) == Ok(record)
            <==> Readable(abc, history, DocumentKey(abc, TrimSpace(scope), TrimSpace(id)), record)
  {
    FoundIffCurrent(abc, history, Path(abc, TrimSpace(scope)) + "/" + Path(abc, TrimSpace(id)), record);
  }

  /** The document that was put last with the ID's path can be read. */
  ghost predicate LastIsReadable(abc: Alphabet, history: seq<Change>, path: string, record: Record) {
    exists i :: LastWithID(abc, history, path, i) && Readable(abc, history, KeyOf(abc, history[i]), record)
  }

  lemma LastIsReadableIff(abc: Alphabet, history: seq<Change>, path: string, record: Record)
    ensures LastIsReadable(abc, history, path, record)
            <==> LatestIndexed(abc, history, path).Some? && Readable(abc, history, LatestIndexed(abc, history, path).value, record)
  {
    if LatestIndexed(abc, history, path).Some? {
      LatestIndexedIff(abc, history, path, LatestIndexed(abc, history, path).value);
    }
    if i :| LastWithID(abc, history, path, i) && Readable(abc, history, KeyOf(abc, history[i]), record) {
      LatestIndexedIff(abc, history, path, KeyOf(abc, history[i]));
    }
  }

  /** By ID alone a read finds the document that was put last with the ID's path, whatever its scope. */
  lemma FoundByID(abc: Alphabet, history: seq<Change>, id: string, scope: string, record: Record)
    requires TrimSpace(id) != "" && TrimSpace(scope) == ""
    ensures Lookup(abc, Replay(abc, history), id, scope) == Ok(record) <==> LastIsReadable(abc, history, Path(abc, TrimSpace(id)), record)
  {
    var path := Path(abc, TrimSpace(id));
    IndexHoldsLatest(abc, history, path);
    LastIsReadableIff(abc, history, path, record);
    if LatestIndexed(abc, history, path).Some? {
      IndexedIsDocumentKey(abc, history, path);
      var rest :| LatestIndexed(abc, history, path).value == DOCUMENT_PREFIX + rest;
      FoundIffCurrent(abc, history, rest, record);
    }
  }

  /** The ID index knows an ID exactly when a document with its path was put at some time. */
  lemma KnownIff(abc: Alphabet, history: seq<Change>, id: string)
    ensures FindKey(abc, Replay(abc, history), id, "").Ok? <==> TrimSpace(id) != "" && exists c <- history :: PutsID(abc, c, Path(abc, id))
  {
    var path := Path(abc, id);
    TrimSpaceIsIdempotent(id);
    assert TrimSpace("") == "" && Path(abc, TrimSpace(id)) == path;
    IndexHoldsLatest(abc, history, path);
    LatestKnown(abc, history, path);
  }

  lemma {:induction false} LatestKnown(abc: Alphabet, history: seq<Change>, path: string)
    ensures LatestIndexed(abc, history, path).Some? <==> exists c <- history :: PutsID(abc, c, path)
  {
    if history != [] {
      var front, last := history[..|history| - 1], history[|history| - 1];
      LatestKnown(abc, front, path);
      assert last in history;
      assert forall c :: c in history <==> c in front || c == last;
    }
  }

  // ----- Relationships -----

  predicate Relating(abc: Alphabet, c: Change, key: string) {
    c.PutRelationship? && RelationKeyOf(abc, c) == key
  }

  /** The i-th change put the relationship that stands under the key: nothing has replaced it. */
  ghost predicate Standing(abc: Alphabet, history: seq<Change>, key: string, i: int) {
    0 <= i < |history| && Relating(abc, history[i], key) && forall j :: i < j < |history| ==> !Relating(abc, history[j], key)
  }

  ghost predicate StandsUnder(abc: Alphabet, history: seq<Change>, key: string, relation: Relation) {
    exists i :: Standing(abc, history, key, i) && history[i].relation == relation
  }

  lemma StandsOneMore(abc: Alphabet, front: seq<Change>, last: Change, key: string, relation: Relation)
    ensures StandsUnder(abc, front + [last], key, relation)
            <==> if Relating(abc, last, key) then last.relation == relation else StandsUnder(abc, front, key, relation)
  {
    var history, n := front + [last], |front|;
    assert history[n] == last && forall j :: 0 <= j < n ==> front[j] == history[j];
    forall i ensures Standing(abc, history, key, i) <==> if Relating(abc, last, key) then i == n else Standing(abc, front, key, i) {
      if i < n {
        assert Standing(abc, history, key, i) ==> !Relating(abc, history[n], key);
      }
    }
    if Relating(abc, last, key) {
      assert Standing(abc, history, key, n);
    }
  }

  /** No document writes a key of the relationships, and no index entry is one. */
  lemma DocumentsAreElsewhere(abc: Alphabet, record: Record, key: string)
    requires RELATIONSHIP_PREFIX <= key || RELATIONSHIP_INDEX <= key
    ensures key != DocumentKey(abc, record.scope, record.id) && key != DocumentIndexKey(abc, record.id) && key !in IndexKeys(abc, record)
  {
    assert key[14] == 'r';
    assert DocumentKey(abc, record.scope, record.id)[14] == 'd' && DocumentIndexKey(abc, record.id)[14] == 'd';
    forall k | k in IndexKeys(abc, record) ensures k[14] == 's' {
    }
  }

  lemma TombstoneIsElsewhere(abc: Alphabet, id: string, key: string)
    requires RELATIONSHIP_PREFIX <= key || RELATIONSHIP_INDEX <= key
    ensures key != TombstoneKey(abc, id)
  {
    assert key[14] == 'r' && TombstoneKey(abc, id)[14] == 't';
  }

  lemma RelationKeyIsNoIndexKey(abc: Alphabet, relation: Relation, path: string)
    ensures RELATIONSHIP_PREFIX + path !in RelationshipIndexKeys(abc, relation)
  {
    assert (RELATIONSHIP_PREFIX + path)[26] == '/';
    forall k | k in RelationshipIndexKeys(abc, relation) ensures k[26] == '-' {
    }
  }

  lemma ChangeOfRelation(abc: Alphabet, forest: Forest, c: Change, path: string)
    ensures var key, after := RELATIONSHIP_PREFIX + path, Apply(abc, forest, c);
            if Relating(abc, c, key) then key in after && after[key] == Related(c.relation)
            else (key in after <==> key in forest) && (key in forest ==> after[key] == forest[key])
  {
    var key := RELATIONSHIP_PREFIX + path;
    match c
    case PutDocument(record) => DocumentsAreElsewhere(abc, record, key);
    case PutRelationship(relation) => RelationKeyIsNoIndexKey(abc, relation, path);
    case Delete(id) => TombstoneIsElsewhere(abc, id, key);
  }

  /** A relationship key holds the one standing relationship put under it. */
  lemma {:induction false} RelationKeyHoldsStanding(abc: Alphabet, history: seq<Change>, path: string, relation: Relation)
    ensures var key, forest := RELATIONSHIP_PREFIX + path, Replay(abc, history);
            && (key in forest ==> forest[key].Related?)
            && (key in forest && forest[key] == Related(relation) <==> StandsUnder(abc, history, key, relation))
  {
    if history != [] {
      var front, last := history[..|history| - 1], history[|history| - 1];
      assert history == front + [last];
      RelationKeyHoldsStanding(abc, front, path, relation);
      ChangeOfRelation(abc, Replay(abc, front), last, path);
      StandsOneMore(abc, front, last, RELATIONSHIP_PREFIX + path, relation);
    }
  }

  // ----- The relationship index -----

  lemma RelationPrefixNames(s: string, t: string, key: string)
    requires '/' !in s && '/' !in t && RelationshipIndexPrefix(s) <= RELATIONSHIP_INDEX + (t + "/" + key)
    ensures s == t
  {
    var k := RELATIONSHIP_INDEX + (t + "/" + key);
    var rest := k[|RelationshipIndexPrefix(s)|..];
    assert k[|RELATIONSHIP_INDEX|..] == s + ['/'] + rest == t + ['/'] + key;
    SameAroundSeparator(s, rest, t, key, '/');
  }

  lemma RelationIndexKey(s: string, key: string)
    ensures RelationshipIndexPrefix(s) + key == RELATIONSHIP_INDEX + (s + "/" + key)
  {
  }

  lemma RelationUnderPrefix(abc: Alphabet, relation: Relation, s: string, k: string)
    requires Sane(abc) && '/' !in s && RelationshipIndexPrefix(s) <= k
    ensures k in RelationshipIndexKeys(abc, relation)
            <==> && s in Sequences(abc, relation.fromID + " " + relation.toID)
                 && k == RelationshipIndexPrefix(s) + RelationshipKey(abc, relation.scope, relation.id)
  {
    var text, key := relation.fromID + " " + relation.toID, RelationshipKey(abc, relation.scope, relation.id);
    if k in RelationshipIndexKeys(abc, relation) {
      var t :| t in Sequences(abc, text) && k == RELATIONSHIP_INDEX + (t + "/" + key);
      SequencesHaveNoSlash(abc, text, t);
      RelationPrefixNames(s, t, key);
    }
    RelationIndexKey(s, key);
  }

  lemma ChangeUnderRelationPrefix(abc: Alphabet, forest: Forest, c: Change, s: string, k: string)
    requires Sane(abc) && '/' !in s && RelationshipIndexPrefix(s) <= k
    ensures k in Apply(abc, forest, c) <==> k in forest || (Relates(abc, c, s) && k == RelationshipIndexPrefix(s) + RelationKeyOf(abc, c))
  {
    assert RELATIONSHIP_INDEX <= k;
    match c
    case PutDocument(record) => DocumentsAreElsewhere(abc, record, k);
    case PutRelationship(relation) =>
      RelationUnderPrefix(abc, relation, s, k);
      assert RelationshipKey(abc, relation.scope, relation.id)[26] == '/' && k[26] == '-';
    case Delete(id) => TombstoneIsElsewhere(abc, id, k);
  }

  /** The keys under a sequence's relationship prefix are exactly those of the relationships put with it as a suffix. */
  lemma {:induction false} RelationIndexIsExact(abc: Alphabet, history: seq<Change>, s: string, k: string)
    requires Sane(abc) && '/' !in s && RelationshipIndexPrefix(s) <= k
    ensures k in Replay(abc, history) <==> exists c <- history :: Relates(abc, c, s) && k == RelationshipIndexPrefix(s) + RelationKeyOf(abc, c)
  {
    if history != [] {
      var front, last := history[..|history| - 1], history[|history| - 1];
      RelationIndexIsExact(abc, front, s, k);
      ChangeUnderRelationPrefix(abc, Replay(abc, front), last, s, k);
      assert forall c :: c in history <==> c in front || c == last;
    }
  }
}
