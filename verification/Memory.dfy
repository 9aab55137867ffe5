/**
  Document memory over a byte-key store. A document is stored under a path made from its
  scope and ID, found by ID through one index and by the suffixes of its text through
  another; relationships between documents have a suffix index of their own. Deleting sets a
  tombstone for the path of an ID; nothing is ever removed from the store, so that what a
  read finds depends on the whole history.
 */
module Memory {
  import opened Wrappers
  import opened Text

  /** What the store knows of Unicode: which characters make words, and lower case. */
  datatype Alphabet = Alphabet(isWord: char -> bool, lower: char -> char)

  predicate Sane(abc: Alphabet) {
    !abc.isWord('/') && !abc.isWord('_')
  }

  // ----- Tokens and suffixes -----

  function Lowered(abc: Alphabet, s: string): string {
    seq(|s|, i requires 0 <= i < |s| => abc.lower(s[i]))
  }

  predicate WordOnly(abc: Alphabet, s: string) {
    s != "" && forall c <- s :: abc.isWord(c)
  }

  /** How many word characters `s` starts with. */
  function WordLength(abc: Alphabet, s: string): (n: nat)
    ensures n <= |s| && (forall i :: 0 <= i < n ==> abc.isWord(s[i])) && (n < |s| ==> !abc.isWord(s[n]))
  {
    if s == "" || !abc.isWord(s[0]) then 0 else 1 + WordLength(abc, s[1..])
  }

  /** The maximal runs of word characters. */
  function Fields(abc: Alphabet, s: string): (tokens: seq<string>)
    ensures forall t <- tokens :: WordOnly(abc, t)
    decreases |s|
  {
    if s == "" then []
    else
      var n := WordLength(abc, s);
      if n == 0 then Fields(abc, s[1..]) else [s[..n]] + Fields(abc, s[n..])
  }

  lemma WordEnds(abc: Alphabet, word: string, sep: char, rest: string)
    requires WordOnly(abc, word) && !abc.isWord(sep)
    ensures Fields(abc, word) == [word] && Fields(abc, word + [sep] + rest) == [word] + Fields(abc, rest)
  {
    var s := word + [sep] + rest;
    forall i | 0 <= i < |word| ensures abc.isWord(word[i]) && s[i] == word[i] {
      assert word[i] in word;
    }
    assert s[|word|] == sep;
    assert WordLength(abc, word) == |word| && WordLength(abc, s) == |word|;
    assert s[..|word|] == word && s[|word|..] == [sep] + rest;
    assert ([sep] + rest)[1..] == rest;
    assert word[..|word|] == word && word[|word|..] == "" && Fields(abc, "") == [];
  }

  /** Joining words with '_' and splitting again gives the words back. */
  lemma {:induction false} FieldsOfJoin(abc: Alphabet, tokens: seq<string>)
    requires Sane(abc) && forall t <- tokens :: WordOnly(abc, t)
    ensures Fields(abc, Join(tokens, '_')) == tokens
  {
    if tokens != [] {
      assert WordOnly(abc, tokens[0]);
      FieldsOfJoin(abc, tokens[1..]);
      WordEnds(abc, tokens[0], '_', Join(tokens[1..], '_'));
    }
  }

  /** The characters that belong to words, in order. */
  function WordCharacters(abc: Alphabet, s: string): string {
    if s == "" then "" else (if abc.isWord(s[0]) then [s[0]] else "") + WordCharacters(abc, s[1..])
  }

  function Concat(tokens: seq<string>): string {
    if tokens == [] then "" else tokens[0] + Concat(tokens[1..])
  }

  lemma {:induction false} WordsAreKept(abc: Alphabet, s: string, n: nat)
    requires n <= |s| && forall i :: 0 <= i < n ==> abc.isWord(s[i])
    ensures WordCharacters(abc, s) == s[..n] + WordCharacters(abc, s[n..])
  {
    if n > 0 {
      WordsAreKept(abc, s[1..], n - 1);
      assert s[1..][n - 1..] == s[n..] && s[..n] == [s[0]] + s[1..][..n - 1];
    } else {
      assert s[0..] == s;
    }
  }

  /** The tokens lose no word character and add none. */
  lemma {:induction false} FieldsKeepWords(abc: Alphabet, s: string)
    ensures Concat(Fields(abc, s)) == WordCharacters(abc, s)
    decreases |s|
  {
    if s != "" {
      var n := WordLength(abc, s);
      if n == 0 {
        FieldsKeepWords(abc, s[1..]);
      } else {
        FieldsKeepWords(abc, s[n..]);
        WordsAreKept(abc, s, n);
        assert ([s[..n]] + Fields(abc, s[n..]))[1..] == Fields(abc, s[n..]);
      }
    }
  }

  function Tokens(abc: Alphabet, text: string): (tokens: seq<string>)
    ensures forall t <- tokens :: WordOnly(abc, t)
  {
    Fields(abc, Lowered(abc, text))
  }

  /** The suffixes of the text's tokens, each joined to one string. */
  function Sequences(abc: Alphabet, text: string): (ss: seq<string>)
    ensures |ss| == |Tokens(abc, text)|
    ensures forall i :: 0 <= i < |ss| ==> ss[i] == Join(Tokens(abc, text)[i..], '_')
  {
    var tokens := Tokens(abc, text);
    seq(|tokens|, i requires 0 <= i < |tokens| => Join(tokens[i..], '_'))
  }

  lemma {:induction false} JoinHasNoSlash(abc: Alphabet, tokens: seq<string>)
    requires Sane(abc) && forall t <- tokens :: WordOnly(abc, t)
    ensures '/' !in Join(tokens, '_')
    ensures tokens != [] ==> Join(tokens, '_') != ""
  {
    if tokens != [] {
      assert WordOnly(abc, tokens[0]);
      JoinHasNoSlash(abc, tokens[1..]);
    }
  }

  /** A joined token list names a text's suffix exactly when it is one. */
  lemma SequenceIsSuffix(abc: Alphabet, text: string, tokens: seq<string>)
    requires Sane(abc) && tokens != [] && forall t <- tokens :: WordOnly(abc, t)
    ensures Join(tokens, '_') in Sequences(abc, text) <==> exists i :: 0 <= i < |Tokens(abc, text)| && Tokens(abc, text)[i..] == tokens
  {
    var all, ss := Tokens(abc, text), Sequences(abc, text);
    if Join(tokens, '_') in ss {
      var i :| 0 <= i < |ss| && ss[i] == Join(tokens, '_');
      assert forall t <- all[i..] :: t in all;
      SplitOfJoin(all[i..], '_');
      SplitOfJoin(tokens, '_');
      assert all[i..] == tokens;
    }
    if i :| 0 <= i < |all| && all[i..] == tokens {
      assert ss[i] == Join(tokens, '_');
    }
  }

  // ----- Keys -----

  const DOCUMENT_PREFIX := "animal/memory/document/"
  const DOCUMENT_INDEX := "animal/memory/document-index/"
  const SEQUENCE_INDEX := "animal/memory/sequence-index/"
  const RELATIONSHIP_PREFIX := "animal/memory/relationship/"
  const RELATIONSHIP_INDEX := "animal/memory/relationship-index/"
  const TOMBSTONE_PREFIX := "animal/memory/tombstone/"

  function TrimUnderscoreLeft(s: string): string {
    if s != "" && s[0] == '_' then TrimUnderscoreLeft(s[1..]) else s
  }

  function TrimUnderscoreRight(s: string): string {
    if s != "" && s[|s| - 1] == '_' then TrimUnderscoreRight(s[..|s| - 1]) else s
  }

  /** Lower case, with everything that belongs to no word replaced. */
  function Kept(abc: Alphabet, s: string): (kept: string)
    ensures |kept| == |s|
    ensures forall i :: 0 <= i < |s| ==> kept[i] == if abc.isWord(abc.lower(s[i])) then abc.lower(s[i]) else '_'
  {
    seq(|s|, i requires 0 <= i < |s| => if abc.isWord(abc.lower(s[i])) then abc.lower(s[i]) else '_')
  }

  /** A path segment made from an ID or a scope. Different IDs can share one. */
  function Path(abc: Alphabet, value: string): string {
    TrimUnderscoreRight(TrimUnderscoreLeft(Kept(abc, TrimSpace(value))))
  }

  function DocumentKey(abc: Alphabet, scope: string, id: string): string {
    DOCUMENT_PREFIX + (Path(abc, scope) + "/" + Path(abc, id))
  }

  lemma {:induction false} TrimmingKeepsCharacters(s: string)
    ensures forall c :: c in TrimUnderscoreLeft(s) ==> c in s
    ensures forall c :: c in TrimUnderscoreRight(s) ==> c in s
    decreases |s|
  {
    if s != "" {
      TrimmingKeepsCharacters(s[1..]);
      TrimmingKeepsCharacters(s[..|s| - 1]);
    }
  }

  lemma PathHasNoSlash(abc: Alphabet, value: string)
    requires Sane(abc)
    ensures '/' !in Path(abc, value)
  {
    var kept := Kept(abc, TrimSpace(value));
    TrimmingKeepsCharacters(kept);
    TrimmingKeepsCharacters(TrimUnderscoreLeft(kept));
  }

  /** Two documents share a key exactly when their scopes share a path and their IDs do. */
  lemma DocumentKeysCollideIff(abc: Alphabet, scope: string, id: string, scope': string, id': string)
    requires Sane(abc)
    ensures DocumentKey(abc, scope, id) == DocumentKey(abc, scope', id')
            <==> Path(abc, scope) == Path(abc, scope') && Path(abc, id) == Path(abc, id')
  {
    var left, right := Path(abc, scope) + ['/'] + Path(abc, id), Path(abc, scope') + ['/'] + Path(abc, id');
    PathHasNoSlash(abc, scope);
    PathHasNoSlash(abc, scope');
    assert DocumentKey(abc, scope, id)[|DOCUMENT_PREFIX|..] == left && DocumentKey(abc, scope', id')[|DOCUMENT_PREFIX|..] == right;
    if left == right {
      SameAroundSeparator(Path(abc, scope), Path(abc, id), Path(abc, scope'), Path(abc, id'), '/');
    }
  }

  function DocumentIndexKey(abc: Alphabet, id: string): string {
    DOCUMENT_INDEX + Path(abc, id)
  }

  function TombstoneKey(abc: Alphabet, id: string): string {
    TOMBSTONE_PREFIX + Path(abc, id)
  }

  function SequenceIndexPrefix(s: string): string {
    SEQUENCE_INDEX + s + "/"
  }

  function SequenceIndexKey(s: string, documentKey: string): string {
    SequenceIndexPrefix(s) + documentKey
  }

  /** The document key inside an index key, or "" when the key has too few segments. */
  function DocumentKeyFromSequenceIndex(key: string): string {
    var parts := SplitN(key, '/', 5);
    if |parts| < 5 then "" else parts[4]
  }

  lemma ThirdSegment(c: string, d: string, rest: string)
    requires '/' !in c && '/' !in d
    ensures SplitN(c + ['/'] + (d + ['/'] + rest), '/', 3) == [c, d, rest]
  {
    SplitNFirst(c, d + ['/'] + rest, '/', 3);
    SplitNFirst(d, rest, '/', 2);
  }

  lemma FifthSegment(a: string, b: string, c: string, d: string, rest: string)
    requires '/' !in a && '/' !in b && '/' !in c && '/' !in d
    ensures DocumentKeyFromSequenceIndex(a + ['/'] + (b + ['/'] + (c + ['/'] + (d + ['/'] + rest)))) == rest
  {
    ThirdSegment(c, d, rest);
    SkipTwoSegments(a, b, c + ['/'] + (d + ['/'] + rest));
  }

  lemma SkipTwoSegments(a: string, b: string, tail: string)
    requires '/' !in a && '/' !in b
    ensures SplitN(a + ['/'] + (b + ['/'] + tail), '/', 5) == [a, b] + SplitN(tail, '/', 3)
  {
    SplitNFirst(b, tail, '/', 4);
    SplitNFirst(a, b + ['/'] + tail, '/', 5);
  }

  lemma SequenceIndexSegments(rest: string)
    ensures SEQUENCE_INDEX + rest == "animal" + ['/'] + ("memory" + ['/'] + ("sequence-index" + ['/'] + rest))
  {
  }

  /** The parser inverts the builder, since sequences hold no slash. */
  lemma ParserInvertsBuilder(s: string, documentKey: string)
    requires '/' !in s
    ensures DocumentKeyFromSequenceIndex(SequenceIndexKey(s, documentKey)) == documentKey
  {
    var rest := s + ['/'] + documentKey;
    SequenceIndexSegments(rest);
    assert SequenceIndexKey(s, documentKey) == SEQUENCE_INDEX + rest;
    FifthSegment("animal", "memory", "sequence-index", s, documentKey);
  }

  /** Only a sequence's own keys carry its prefix. */
  lemma PrefixNamesSequence(s: string, t: string, documentKey: string)
    requires '/' !in s && '/' !in t
    ensures SequenceIndexPrefix(s) <= SequenceIndexKey(t, documentKey) <==> s == t
  {
    var key := SequenceIndexKey(t, documentKey);
    if SequenceIndexPrefix(s) <= key {
      var rest := key[|SequenceIndexPrefix(s)|..];
      assert key == SEQUENCE_INDEX + (s + ['/'] + rest);
      assert key == SEQUENCE_INDEX + (t + ['/'] + documentKey);
      assert key[|SEQUENCE_INDEX|..] == s + ['/'] + rest == t + ['/'] + documentKey;
      SameAroundSeparator(s, rest, t, documentKey, '/');
    }
  }

  /** The keys of the other families lie outside the sequence index. */
  lemma OtherFamilies(rest: string)
    ensures !(SEQUENCE_INDEX <= DOCUMENT_PREFIX + rest) && !(SEQUENCE_INDEX <= DOCUMENT_INDEX + rest)
    ensures !(SEQUENCE_INDEX <= RELATIONSHIP_PREFIX + rest) && !(SEQUENCE_INDEX <= RELATIONSHIP_INDEX + rest)
    ensures !(SEQUENCE_INDEX <= TOMBSTONE_PREFIX + rest)
  {
    assert SEQUENCE_INDEX[14] == 's';
    assert (DOCUMENT_PREFIX + rest)[14] == 'd' && (DOCUMENT_INDEX + rest)[14] == 'd';
    assert (RELATIONSHIP_PREFIX + rest)[14] == 'r' && (RELATIONSHIP_INDEX + rest)[14] == 'r';
    assert (TOMBSTONE_PREFIX + rest)[14] == 't';
  }

  // ----- The store -----

  datatype Record = Record(id: string, scope: string, text: string)

  datatype Relation = Relation(id: string, scope: string, fromID: string, toID: string, relationship: string)

  datatype Value = Document(record: Record) | Related(relation: Relation) | KeyValue(key: string) | Mark

  type Forest = map<string, Value>

  /** A stored relationship also decodes as a document: one without text. */
  function DecodeDocument(v: Value): Option<Record> {
    match v
    case Document(record) => Some(record)
    case Related(relation) => Some(Record(relation.id, relation.scope, ""))
    case KeyValue(_) => None
    case Mark => None
  }

  function RelationshipKey(abc: Alphabet, scope: string, id: string): string {
    RELATIONSHIP_PREFIX + (Path(abc, scope) + "/" + Path(abc, id))
  }

  datatype Change = PutDocument(record: Record) | PutRelationship(relation: Relation) | Delete(id: string)

  function KeysFor(sequences: seq<string>, documentKey: string): set<string> {
    set s | s in sequences :: SequenceIndexKey(s, documentKey)
  }

  function IndexKeys(abc: Alphabet, record: Record): set<string> {
    KeysFor(Sequences(abc, record.text), DocumentKey(abc, record.scope, record.id))
  }

  function RelationshipKeysFor(sequences: seq<string>, relationshipKey: string): set<string> {
    set s | s in sequences :: RELATIONSHIP_INDEX + (s + "/" + relationshipKey)
  }

  function RelationshipIndexKeys(abc: Alphabet, relation: Relation): set<string> {
    RelationshipKeysFor(Sequences(abc, relation.fromID + " " + relation.toID), RelationshipKey(abc, relation.scope, relation.id))
  }

  function Marks(keys: set<string>): Forest {
    map k | k in keys :: Mark
  }

  lemma MarkOneMore(forest: Forest, keys: set<string>, k: string)
    ensures forest + Marks(keys + {k}) == (forest + Marks(keys))[k := Mark]
  {
  }

  function Apply(abc: Alphabet, forest: Forest, c: Change): Forest {
    match c
    case PutDocument(record) =>
      var documentKey := DocumentKey(abc, record.scope, record.id);
      forest[documentKey := Document(record)][DocumentIndexKey(abc, record.id) := KeyValue(documentKey)]
        + Marks(IndexKeys(abc, record))
    case PutRelationship(relation) =>
      forest[RelationshipKey(abc, relation.scope, relation.id) := Related(relation)]
        + Marks(RelationshipIndexKeys(abc, relation))
    case Delete(id) => forest[TombstoneKey(abc, id) := Mark]
  }

  function Replay(abc: Alphabet, history: seq<Change>): Forest {
    if history == [] then map[] else Apply(abc, Replay(abc, history[..|history| - 1]), history[|history| - 1])
  }

  // ----- The sequence index over all runs -----

  /** The change stored a document whose text has the sequence as a suffix. */
  predicate Indexes(abc: Alphabet, c: Change, s: string) {
    c.PutDocument? && s in Sequences(abc, c.record.text)
  }

  function KeyOf(abc: Alphabet, c: Change): string
    requires c.PutDocument?
  {
    DocumentKey(abc, c.record.scope, c.record.id)
  }

  /** The document keys that walking the prefix of the sequence visits. */
  function Visited(forest: Forest, s: string): set<string> {
    set k | k in forest && SequenceIndexPrefix(s) <= k :: DocumentKeyFromSequenceIndex(k)
  }

  /** A key under the prefix of `s` is the entry of a document that was put with `s` as a suffix. */
  ghost predicate EntryOk(abc: Alphabet, history: seq<Change>, forest: Forest, s: string, k: string) {
    SequenceIndexPrefix(s) <= k ==>
      (k in forest <==> exists c <- history :: Indexes(abc, c, s) && k == SequenceIndexKey(s, KeyOf(abc, c)))
  }

  lemma SequencesHaveNoSlash(abc: Alphabet, text: string, s: string)
    requires Sane(abc) && s in Sequences(abc, text)
    ensures '/' !in s
  {
    var tokens := Tokens(abc, text);
    var i :| 0 <= i < |tokens| && s == Join(tokens[i..], '_');
    assert forall t <- tokens[i..] :: t in tokens;
    JoinHasNoSlash(abc, tokens[i..]);
  }

  lemma DocumentUnderPrefix(abc: Alphabet, record: Record, s: string, k: string)
    requires Sane(abc) && '/' !in s && SequenceIndexPrefix(s) <= k
    ensures k in IndexKeys(abc, record) <==> s in Sequences(abc, record.text) && k == SequenceIndexKey(s, DocumentKey(abc, record.scope, record.id))
  {
    var documentKey := DocumentKey(abc, record.scope, record.id);
    if k in IndexKeys(abc, record) {
      var t :| t in Sequences(abc, record.text) && k == SequenceIndexKey(t, documentKey);
      SequencesHaveNoSlash(abc, record.text, t);
      PrefixNamesSequence(s, t, documentKey);
    }
  }

  lemma RecordKeysAreElsewhere(abc: Alphabet, record: Record)
    ensures !(SEQUENCE_INDEX <= DocumentKey(abc, record.scope, record.id)) && !(SEQUENCE_INDEX <= DocumentIndexKey(abc, record.id))
  {
    OtherFamilies(Path(abc, record.scope) + "/" + Path(abc, record.id));
    OtherFamilies(Path(abc, record.id));
  }

  lemma RelationKeysAreElsewhere(abc: Alphabet, relation: Relation)
    ensures !(SEQUENCE_INDEX <= RelationshipKey(abc, relation.scope, relation.id))
    ensures forall k <- RelationshipIndexKeys(abc, relation) :: !(SEQUENCE_INDEX <= k)
  {
    var path := Path(abc, relation.scope) + "/" + Path(abc, relation.id);
    var key := RelationshipKey(abc, relation.scope, relation.id);
    OtherFamilies(path);
    forall k | k in RelationshipIndexKeys(abc, relation) ensures !(SEQUENCE_INDEX <= k) {
      var t :| t in Sequences(abc, relation.fromID + " " + relation.toID) && k == RELATIONSHIP_INDEX + (t + "/" + key);
      OtherFamilies(t + "/" + key);
    }
  }

  /** What one change adds under the prefix of a sequence. */
  lemma ChangeUnderPrefix(abc: Alphabet, forest: Forest, c: Change, s: string, k: string)
    requires Sane(abc) && '/' !in s && SequenceIndexPrefix(s) <= k
    ensures k in Apply(abc, forest, c) <==> k in forest || (Indexes(abc, c, s) && k == SequenceIndexKey(s, KeyOf(abc, c)))
  {
    assert SEQUENCE_INDEX <= k;
    match c
    case PutDocument(record) =>
      DocumentUnderPrefix(abc, record, s, k);
      RecordKeysAreElsewhere(abc, record);
    case PutRelationship(relation) =>
      RelationKeysAreElsewhere(abc, relation);
    case Delete(id) => OtherFamilies(Path(abc, id));
  }

  lemma {:induction false} IndexIsExact(abc: Alphabet, history: seq<Change>, s: string, k: string)
    requires Sane(abc) && '/' !in s
    ensures EntryOk(abc, history, Replay(abc, history), s, k)
  {
    if history != [] && SequenceIndexPrefix(s) <= k {
      var front, last := history[..|history| - 1], history[|history| - 1];
      IndexIsExact(abc, front, s, k);
      ChangeUnderPrefix(abc, Replay(abc, front), last, s, k);
      assert forall c :: c in history <==> c in front || c == last;
    }
  }

  /** Walking a sequence's prefix visits exactly the document keys ever put with that sequence as a suffix. */
  lemma WalkVisitsPutDocuments(abc: Alphabet, history: seq<Change>, s: string, documentKey: string)
    requires Sane(abc) && '/' !in s
    ensures documentKey in Visited(Replay(abc, history), s)
            <==> exists c <- history :: Indexes(abc, c, s) && documentKey == KeyOf(abc, c)
  {
    var forest := Replay(abc, history);
    if documentKey in Visited(forest, s) {
      var k :| k in forest && SequenceIndexPrefix(s) <= k && DocumentKeyFromSequenceIndex(k) == documentKey;
      IndexIsExact(abc, history, s, k);
      var c :| c in history && Indexes(abc, c, s) && k == SequenceIndexKey(s, KeyOf(abc, c));
      ParserInvertsBuilder(s, KeyOf(abc, c));
    }
    if c :| c in history && Indexes(abc, c, s) && documentKey == KeyOf(abc, c) {
      var k := SequenceIndexKey(s, documentKey);
      ParserInvertsBuilder(s, documentKey);
      IndexIsExact(abc, history, s, k);
    }
  }

  // ----- The relationship index -----

  /** A stored document also decodes as a relationship: one without endpoints and type. */
  function DecodeRelationship(v: Value): Option<Relation> {
    match v
    case Document(record) => Some(Relation(record.id, record.scope, "", "", ""))
    case Related(relation) => Some(relation)
    case KeyValue(_) => None
    case Mark => None
  }

  function RelationshipIndexPrefix(s: string): string {
    RELATIONSHIP_INDEX + s + "/"
  }

  /** Index keys of relationships are parsed like those of documents. */
  function RelationshipKeyFromIndex(key: string): string {
    DocumentKeyFromSequenceIndex(key)
  }

  /** The change stored a relationship whose endpoints, read as one text, have the sequence as a suffix. */
  predicate Relates(abc: Alphabet, c: Change, s: string) {
    c.PutRelationship? && s in Sequences(abc, c.relation.fromID + " " + c.relation.toID)
  }

  function RelationKeyOf(abc: Alphabet, c: Change): string
    requires c.PutRelationship?
  {
    RelationshipKey(abc, c.relation.scope, c.relation.id)
  }

  lemma RelationshipIndexSegments(rest: string)
    ensures RELATIONSHIP_INDEX + rest == "animal" + ['/'] + ("memory" + ['/'] + ("relationship-index" + ['/'] + rest))
  {
  }

  lemma RelationshipParserInvertsBuilder(s: string, relationshipKey: string)
    requires '/' !in s
    ensures RelationshipKeyFromIndex(RELATIONSHIP_INDEX + (s + "/" + relationshipKey)) == relationshipKey
    ensures RelationshipIndexPrefix(s) <= RELATIONSHIP_INDEX + (s + "/" + relationshipKey)
  {
    var rest := s + ['/'] + relationshipKey;
    RelationshipIndexSegments(rest);
    FifthSegment("animal", "memory", "relationship-index", s, relationshipKey);
    RelationshipPrefixFits(s, relationshipKey);
  }

  lemma RelationshipPrefixFits(s: string, relationshipKey: string)
    ensures RelationshipIndexPrefix(s) <= RELATIONSHIP_INDEX + (s + "/" + relationshipKey)
  {
    assert RELATIONSHIP_INDEX + (s + "/" + relationshipKey) == RelationshipIndexPrefix(s) + relationshipKey;
  }

  /** A relationship put with the sequence as a suffix has its index key in the store, in every later state. */
  lemma RelationIsIndexed(abc: Alphabet, history: seq<Change>, c: Change, s: string)
    requires c in history && Relates(abc, c, s)
    ensures RELATIONSHIP_INDEX + (s + "/" + RelationKeyOf(abc, c)) in Replay(abc, history)
  {
    var i :| 0 <= i < |history| && history[i] == c;
    var upTo, k := history[..i + 1], RELATIONSHIP_INDEX + (s + "/" + RelationKeyOf(abc, c));
    assert upTo[..i] == history[..i] && upTo[i] == c;
    assert k in RelationshipIndexKeys(abc, c.relation);
    NothingIsRemoved(abc, upTo, history[i + 1..], k);
    assert upTo + history[i + 1..] == history;
  }

  // ----- What a document key holds, over all runs -----

  /** The record of the last put under this document key. */
  function LatestPut(abc: Alphabet, history: seq<Change>, documentKey: string): Option<Record> {
    if history == [] then None
    else
      var last := history[|history| - 1];
      if last.PutDocument? && KeyOf(abc, last) == documentKey then Some(last.record)
      else LatestPut(abc, history[..|history| - 1], documentKey)
  }

  /** Where the keys that one change writes differ from a document key. */
  lemma DocumentKeyIsNoIndexKey(abc: Alphabet, record: Record, path: string)
    ensures DocumentIndexKey(abc, record.id) != DOCUMENT_PREFIX + path && DOCUMENT_PREFIX + path !in IndexKeys(abc, record)
  {
    var key := DOCUMENT_PREFIX + path;
    assert key[14] == 'd' && key[22] == '/';
    assert DocumentIndexKey(abc, record.id)[22] == '-';
    forall k | k in IndexKeys(abc, record) ensures k[14] == 's' {
    }
  }

  lemma DocumentKeyIsNoRelationship(abc: Alphabet, relation: Relation, path: string)
    ensures RelationshipKey(abc, relation.scope, relation.id) != DOCUMENT_PREFIX + path
    ensures DOCUMENT_PREFIX + path !in RelationshipIndexKeys(abc, relation)
  {
    assert (DOCUMENT_PREFIX + path)[14] == 'd';
    assert RelationshipKey(abc, relation.scope, relation.id)[14] == 'r';
    forall k | k in RelationshipIndexKeys(abc, relation) ensures k[14] == 'r' {
    }
  }

  lemma DocumentKeysStay(abc: Alphabet, forest: Forest, c: Change, path: string)
    requires !(c.PutDocument? && KeyOf(abc, c) == DOCUMENT_PREFIX + path)
    ensures var key := DOCUMENT_PREFIX + path;
            (key in Apply(abc, forest, c) <==> key in forest) && (key in forest ==> Apply(abc, forest, c)[key] == forest[key])
  {
    match c
    case PutDocument(record) => DocumentKeyIsNoIndexKey(abc, record, path);
    case PutRelationship(relation) => DocumentKeyIsNoRelationship(abc, relation, path);
    case Delete(id) => assert (DOCUMENT_PREFIX + path)[14] == 'd' && TombstoneKey(abc, id)[14] == 't';
  }

  /** A document key holds what was last put under it; no index entry, relationship or tombstone touches it. */
  lemma {:induction false} DocumentKeyHoldsLatestPut(abc: Alphabet, history: seq<Change>, path: string)
    ensures var key, forest := DOCUMENT_PREFIX + path, Replay(abc, history);
            && (key in forest <==> LatestPut(abc, history, key).Some?)
            && (key in forest ==> forest[key] == Document(LatestPut(abc, history, key).value))
  {
    if history != [] {
      var front, last := history[..|history| - 1], history[|history| - 1];
      DocumentKeyHoldsLatestPut(abc, front, path);
      if last.PutDocument? && KeyOf(abc, last) == DOCUMENT_PREFIX + path {
        DocumentKeyIsNoIndexKey(abc, last.record, path);
      } else {
        DocumentKeysStay(abc, Replay(abc, front), last, path);
      }
    }
  }

  // ----- Tombstones -----

  predicate Tombstoned(abc: Alphabet, forest: Forest, id: string) {
    TombstoneKey(abc, id) in forest
  }

  lemma {:induction false} NothingIsRemoved(abc: Alphabet, history: seq<Change>, more: seq<Change>, k: string)
    requires k in Replay(abc, history)
    ensures k in Replay(abc, history + more)
  {
    if more == [] {
      assert history + more == history;
    } else {
      var front := more[..|more| - 1];
      NothingIsRemoved(abc, history, front, k);
      assert (history + more)[..|history + more| - 1] == history + front;
    }
  }

  /** Some ID with this path was deleted. */
  ghost predicate WasDeleted(abc: Alphabet, history: seq<Change>, id: string) {
    exists c <- history :: c.Delete? && Path(abc, c.id) == Path(abc, id)
  }

  lemma ChangeSetsTombstone(abc: Alphabet, forest: Forest, c: Change, id: string)
    ensures Tombstoned(abc, Apply(abc, forest, c), id) <==> Tombstoned(abc, forest, id) || (c.Delete? && Path(abc, c.id) == Path(abc, id))
  {
    var key := TombstoneKey(abc, id);
    match c
    case PutDocument(record) => TombstonesAreElsewhere(abc, record, Path(abc, id));
    case PutRelationship(relation) => TombstoneIsNoRelationship(abc, relation, Path(abc, id));
    case Delete(other) => assert TombstoneKey(abc, other)[|TOMBSTONE_PREFIX|..] == Path(abc, other) && key[|TOMBSTONE_PREFIX|..] == Path(abc, id);
  }

  lemma TombstoneIsNoRelationship(abc: Alphabet, relation: Relation, path: string)
    ensures RelationshipKey(abc, relation.scope, relation.id) != TOMBSTONE_PREFIX + path
    ensures TOMBSTONE_PREFIX + path !in RelationshipIndexKeys(abc, relation)
  {
    assert (TOMBSTONE_PREFIX + path)[14] == 't';
    assert RelationshipKey(abc, relation.scope, relation.id)[14] == 'r';
    forall k | k in RelationshipIndexKeys(abc, relation) ensures k[14] == 'r' {
    }
  }

  /** An ID has a tombstone exactly when an ID with its path was deleted at some time. */
  lemma {:induction false} TombstonedIff(abc: Alphabet, history: seq<Change>, id: string)
    ensures Tombstoned(abc, Replay(abc, history), id) <==> WasDeleted(abc, history, id)
  {
    if history != [] {
      var front, last := history[..|history| - 1], history[|history| - 1];
      TombstonedIff(abc, front, id);
      ChangeSetsTombstone(abc, Replay(abc, front), last, id);
      assert forall c :: c in history <==> c in front || c == last;
    }
  }

  /** Once deleted, an ID and every other ID with its path stay deleted, also when they are put again. */
  lemma DeletionIsForever(abc: Alphabet, history: seq<Change>, i: nat, id: string)
    requires i < |history| && history[i].Delete? && Path(abc, history[i].id) == Path(abc, id)
    ensures forall more: seq<Change> :: Tombstoned(abc, Replay(abc, history + more), id)
  {
    forall more: seq<Change> ensures Tombstoned(abc, Replay(abc, history + more), id) {
      TombstonedIff(abc, history + more, id);
      assert (history + more)[i] in history + more;
    }
  }

  /** What is left of a character that belongs to no word. */
  predicate Punctuation(abc: Alphabet, c: char) {
    abc.lower(c) == c && !abc.isWord(c) && !IsSpace(c)
  }

  /** IDs that differ in punctuation only have one path. */
  lemma PathForgetsPunctuation(abc: Alphabet, head: string, c: char, d: char, tail: string)
    requires NoEdgeSpace(head + [c] + tail) && NoEdgeSpace(head + [d] + tail) && Punctuation(abc, c) && Punctuation(abc, d)
    ensures Path(abc, head + [c] + tail) == Path(abc, head + [d] + tail)
  {
    TrimSpaceFixes(head + [c] + tail);
    TrimSpaceFixes(head + [d] + tail);
    assert Kept(abc, head + [c] + tail) == Kept(abc, head + [d] + tail);
  }

  // ----- Reading -----

  datatype MemoryError = NoID | NoScope | EmptyText | NoEndpoints | NoRelationship | NotFound

  /** The stored document, unless the ID inside it has a tombstone. */
  function GetDocument(abc: Alphabet, forest: Forest, documentKey: string): (r: Result<Record, MemoryError>)
    ensures r.Ok? ==> !Tombstoned(abc, forest, r.value.id) && documentKey in forest && DecodeDocument(forest[documentKey]) == Some(r.value)
  {
    if documentKey !in forest then Err(NotFound)
    else
      var record := DecodeDocument(forest[documentKey]);
      if record.None? || Tombstoned(abc, forest, record.value.id) then Err(NotFound) else Ok(record.value)
  }

  lemma IndexKeyIsNoRelationship(abc: Alphabet, relation: Relation, path: string)
    ensures RelationshipKey(abc, relation.scope, relation.id) != DOCUMENT_INDEX + path
    ensures DOCUMENT_INDEX + path !in RelationshipIndexKeys(abc, relation)
  {
    assert (DOCUMENT_INDEX + path)[14] == 'd';
    assert RelationshipKey(abc, relation.scope, relation.id)[14] == 'r';
    forall k | k in RelationshipIndexKeys(abc, relation) ensures k[14] == 'r' {
    }
  }

  lemma ChangeKeepsIndex(abc: Alphabet, forest: Forest, c: Change, path: string)
    requires DOCUMENT_INDEX + path in forest ==> forest[DOCUMENT_INDEX + path].KeyValue?
    ensures var key := DOCUMENT_INDEX + path;
            key in Apply(abc, forest, c) ==> Apply(abc, forest, c)[key].KeyValue?
  {
    var key := DOCUMENT_INDEX + path;
    match c
    case PutDocument(record) =>
      IndexKeyStays(abc, record, path);
      assert key[22] == '-' && DocumentKey(abc, record.scope, record.id)[22] == '/';
    case PutRelationship(relation) => IndexKeyIsNoRelationship(abc, relation, path);
    case Delete(id) => assert key[14] == 'd' && TombstoneKey(abc, id)[14] == 't';
  }

  /** An index key holds a document key, in every run. */
  lemma {:induction false} IndexHoldsKeys(abc: Alphabet, history: seq<Change>, path: string)
    ensures var key := DOCUMENT_INDEX + path;
            key in Replay(abc, history) ==> Replay(abc, history)[key].KeyValue?
  {
    if history != [] {
      var front, last := history[..|history| - 1], history[|history| - 1];
      IndexHoldsKeys(abc, front, path);
      ChangeKeepsIndex(abc, Replay(abc, front), last, path);
    }
  }

  function FindKey(abc: Alphabet, forest: Forest, id: string, scope: string): Result<string, MemoryError> {
    if TrimSpace(id) == "" then Err(NoID)
    else if TrimSpace(scope) != "" then Ok(DocumentKey(abc, TrimSpace(scope), TrimSpace(id)))
    else
      var k := DocumentIndexKey(abc, TrimSpace(id));
      if k in forest && forest[k].KeyValue? then Ok(forest[k].key) else Err(NotFound)
  }

  function Lookup(abc: Alphabet, forest: Forest, id: string, scope: string): Result<Record, MemoryError> {
    var k := FindKey(abc, forest, id, scope);
    if k.Err? then Err(k.error) else GetDocument(abc, forest, k.value)
  }

  /** The document key of the last document put with an ID of this path. */
  function LatestIndexed(abc: Alphabet, history: seq<Change>, path: string): Option<string> {
    if history == [] then None
    else
      var last := history[|history| - 1];
      if last.PutDocument? && Path(abc, last.record.id) == path then Some(KeyOf(abc, last))
      else LatestIndexed(abc, history[..|history| - 1], path)
  }

  lemma ChangeOfIndex(abc: Alphabet, forest: Forest, c: Change, path: string)
    ensures var key, after := DOCUMENT_INDEX + path, Apply(abc, forest, c);
            if c.PutDocument? && Path(abc, c.record.id) == path then key in after && after[key] == KeyValue(KeyOf(abc, c))
            else (key in after <==> key in forest) && (key in forest ==> after[key] == forest[key])
  {
    var key := DOCUMENT_INDEX + path;
    match c
    case PutDocument(record) =>
      IndexKeyStays(abc, record, path);
      assert key[22] == '-' && DocumentKey(abc, record.scope, record.id)[22] == '/';
      assert DocumentIndexKey(abc, record.id)[|DOCUMENT_INDEX|..] == Path(abc, record.id) && key[|DOCUMENT_INDEX|..] == path;
    case PutRelationship(relation) => IndexKeyIsNoRelationship(abc, relation, path);
    case Delete(id) => assert key[14] == 'd' && TombstoneKey(abc, id)[14] == 't';
  }

  /** The ID index leads to the last document put with an ID of the path, and nowhere else. */
  lemma {:induction false} IndexHoldsLatest(abc: Alphabet, history: seq<Change>, path: string)
    ensures var key, forest := DOCUMENT_INDEX + path, Replay(abc, history);
            && (key in forest <==> LatestIndexed(abc, history, path).Some?)
            && (key in forest ==> forest[key] == KeyValue(LatestIndexed(abc, history, path).value))
  {
    if history != [] {
      var front, last := history[..|history| - 1], history[|history| - 1];
      IndexHoldsLatest(abc, front, path);
      ChangeOfIndex(abc, Replay(abc, front), last, path);
    }
  }

  /** What a document key leads to, told from the changes made so far. */
  ghost function Stored(abc: Alphabet, history: seq<Change>, documentKey: string): Result<Record, MemoryError> {
    var latest := LatestPut(abc, history, documentKey);
    if latest.None? || WasDeleted(abc, history, latest.value.id) then Err(NotFound) else Ok(latest.value)
  }

  lemma GetDocumentIsStored(abc: Alphabet, history: seq<Change>, path: string)
    ensures GetDocument(abc, Replay(abc, history), DOCUMENT_PREFIX + path) == Stored(abc, history, DOCUMENT_PREFIX + path)
  {
    DocumentKeyHoldsLatestPut(abc, history, path);
    var latest := LatestPut(abc, history, DOCUMENT_PREFIX + path);
    if latest.Some? {
      TombstonedIff(abc, history, latest.value.id);
    }
  }

  lemma {:induction false} IndexedIsDocumentKey(abc: Alphabet, history: seq<Change>, path: string)
    requires LatestIndexed(abc, history, path).Some?
    ensures exists rest :: LatestIndexed(abc, history, path).value == DOCUMENT_PREFIX + rest
  {
    var last := history[|history| - 1];
    if last.PutDocument? && Path(abc, last.record.id) == path {
      assert KeyOf(abc, last) == DOCUMENT_PREFIX + (Path(abc, last.record.scope) + "/" + Path(abc, last.record.id));
    } else {
      IndexedIsDocumentKey(abc, history[..|history| - 1], path);
    }
  }

  /**
    Reading over all runs: by scope and ID the last put under that key, by ID alone the last
    put of any scope, and in both cases nothing if the ID inside was ever deleted.
   */
  lemma LookupIsStored(abc: Alphabet, history: seq<Change>, id: string, scope: string)
    ensures Lookup(abc, Replay(abc, history), id, scope) ==
            if TrimSpace(id) == "" then Err(NoID)
            else if TrimSpace(scope) != "" then Stored(abc, history, DocumentKey(abc, TrimSpace(scope), TrimSpace(id)))
            else
              var key := LatestIndexed(abc, history, Path(abc, TrimSpace(id)));
              if key.None? then Err(NotFound) else Stored(abc, history, key.value)
  {
    if TrimSpace(id) != "" && TrimSpace(scope) != "" {
      GetDocumentIsStored(abc, history, Path(abc, TrimSpace(scope)) + "/" + Path(abc, TrimSpace(id)));
    } else if TrimSpace(id) != "" {
      var path := Path(abc, TrimSpace(id));
      IndexHoldsLatest(abc, history, path);
      if LatestIndexed(abc, history, path).Some? {
        IndexedIsDocumentKey(abc, history, path);
        var rest :| LatestIndexed(abc, history, path).value == DOCUMENT_PREFIX + rest;
        GetDocumentIsStored(abc, history, rest);
      }
    }
  }

  /** No read returns an ID that was ever deleted. */
  lemma DeletedIsNeverRead(abc: Alphabet, history: seq<Change>, i: nat, id: string, scope: string)
    requires i < |history| && history[i].Delete?
    requires Lookup(abc, Replay(abc, history), id, scope).Ok?
    ensures Path(abc, Lookup(abc, Replay(abc, history), id, scope).value.id) != Path(abc, history[i].id)
  {
    var found := Lookup(abc, Replay(abc, history), id, scope).value.id;
    TombstonedIff(abc, history, found);
    assert history[i] in history;
  }

  /**
    Right after a put, the document is read back by ID and scope and by ID alone, unless an
    ID with its path was deleted before.
   */
  lemma PutIsReadBack(abc: Alphabet, history: seq<Change>, record: Record)
    requires TrimSpace(record.id) == record.id != "" && TrimSpace(record.scope) == record.scope != ""
    ensures var after := Replay(abc, history + [PutDocument(record)]);
            var expected := if WasDeleted(abc, history, record.id) then Err(NotFound) else Ok(record);
            Lookup(abc, after, record.id, record.scope) == expected && Lookup(abc, after, record.id, "") == expected
  {
    var all := history + [PutDocument(record)];
    assert all[..|all| - 1] == history && TrimSpace("") == "";
    assert forall c :: c in all <==> c in history || c == PutDocument(record);
    LookupIsStored(abc, all, record.id, record.scope);
    LookupIsStored(abc, all, record.id, "");
  }

  /** Deleting one ID hides every other that shares its path, for good. */
  lemma HiddenByPath(abc: Alphabet, scope: string, text: string, deleted: string, id: string)
    requires TrimSpace(scope) == scope != "" && TrimSpace(id) == id != "" && Path(abc, deleted) == Path(abc, id)
    ensures var history := [PutDocument(Record(deleted, scope, text)), Delete(deleted), PutDocument(Record(id, scope, text))];
            Lookup(abc, Replay(abc, history), id, scope) == Err(NotFound)
  {
    var before := [PutDocument(Record(deleted, scope, text)), Delete(deleted)];
    assert before[1] in before && WasDeleted(abc, before, id);
    PutIsReadBack(abc, before, Record(id, scope, text));
    assert before + [PutDocument(Record(id, scope, text))]
        == [PutDocument(Record(deleted, scope, text)), Delete(deleted), PutDocument(Record(id, scope, text))];
  }

  /** "a-b" and "a_b" share a path. */
  lemma DifferentIDsShareAPath(abc: Alphabet)
    requires Punctuation(abc, '-') && Punctuation(abc, '_')
    ensures "a-b" != "a_b" && Path(abc, "a-b") == Path(abc, "a_b") && TrimSpace("a_b") == "a_b"
  {
    assert "a-b" == "a" + ['-'] + "b" && "a_b" == "a" + ['_'] + "b" && "a-b"[1] != "a_b"[1];
    PathForgetsPunctuation(abc, "a", '-', '_', "b");
    TrimSpaceFixes("a_b");
  }

  lemma IndexKeyStays(abc: Alphabet, record: Record, path: string)
    ensures DOCUMENT_INDEX + path !in IndexKeys(abc, record)
  {
    assert (DOCUMENT_INDEX + path)[14] == 'd';
    forall k | k in IndexKeys(abc, record) ensures k[14] == 's' {
    }
  }

  /** Putting a document neither sets nor lifts a tombstone. */
  lemma TombstonesAreElsewhere(abc: Alphabet, record: Record, path: string)
    ensures TOMBSTONE_PREFIX + path !in IndexKeys(abc, record)
    ensures TOMBSTONE_PREFIX + path != DocumentKey(abc, record.scope, record.id) && TOMBSTONE_PREFIX + path != DocumentIndexKey(abc, record.id)
  {
    assert (TOMBSTONE_PREFIX + path)[14] == 't';
    assert DocumentKey(abc, record.scope, record.id)[14] == 'd' && DocumentIndexKey(abc, record.id)[14] == 'd';
    forall k | k in IndexKeys(abc, record) ensures k[14] == 's' {
    }
  }
}
