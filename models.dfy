/**
 * The persistent entities of the newsletter (feeds, entries, subscribers) and the
 * synchronisation of one feed: choosing the document's "last published" timestamp,
 * comparing it with the feed's watermark, building the entries that are not stored
 * yet and inserting them in one batch.
 *
 * Fetching a feed and parsing dates are collaborators of the program: the fetched
 * document is a value with optional fields, and the fixed date grammar is a partial
 * function from strings to integer timestamps.
 */
module Models {
  import opened Wrappers
  import opened Seqs

  /** The date grammar "ddd, DD MMM YYYY HH:mm:ss" as a partial parser to timestamps. */
  type DateParser = string -> Option<int>

  /** One item of a fetched feed document; `tags` is missing when the item has none. */
  datatype DocEntry = DocEntry(
    id: string,
    title: string,
    link: string,
    summary: string,
    published: Option<string>,
    tags: Option<seq<string>>)

  /** A fetched feed document: a top-level `updated`, the channel's `updated`, the items. */
  datatype Document = Document(
    updated: Option<string>,
    feedUpdated: Option<string>,
    entries: seq<DocEntry>)

  /** A stored entry; `id` is the primary key and `feed` the primary key of its feed. */
  datatype Entry = Entry(
    id: nat,
    entryId: string,
    title: string,
    summary: string,
    tags: string,
    url: string,
    publicationDate: int,
    sent: bool,
    feed: nat)

  /** A recipient of the digest; (name, email) is unique. */
  datatype Subscriber = Subscriber(name: string, email: string)

  /** The exceptions that escape a feed synchronisation. */
  datatype SyncError =
    | UnparseableDate(text: string)       // the date grammar rejected a present field
    | NoTimestamp                         // no `updated` field and no item to fall back on
    | MissingPublished(entryId: string)   // an item without `published` was needed
    | DuplicateEntryId                    // the batch violates the uniqueness of entry_id

  /** No two stored entries share a primary key. */
  ghost predicate UniquePrimaryKeys(rows: seq<Entry>)
  {
    forall i, j :: 0 <= i < j < |rows| ==> rows[i].id != rows[j].id
  }

  /** The integrity constraints of the entry table: primary keys and entry ids are unique,
      and every primary key was handed out before `nextId`. */
  ghost predicate ValidRows(rows: seq<Entry>, nextId: nat)
  {
    && UniquePrimaryKeys(rows)
    && DistinctEntryIds(rows)
    && (forall i :: 0 <= i < |rows| ==> rows[i].id < nextId)
  }

  /** The query "an entry with this entry id exists". */
  predicate HasEntryId(rows: seq<Entry>, entryId: string)
  {
    exists r :: r in rows && r.entryId == entryId
  }

  /** No two of the entries share an entry id. */
  predicate DistinctEntryIds(rows: seq<Entry>)
  {
    forall i, j :: 0 <= i < j < |rows| ==> rows[i].entryId != rows[j].entryId
  }

  // ---------------------------------------------------------------------------
  // Timestamps

  /** Parses a present date field; a rejected date is an error, never a fallback. */
  function ParseDate(parse: DateParser, text: string): (r: Result<int, SyncError>)
    ensures r.Success? <==> parse(text).Some?
    ensures r.Success? ==> parse(text) == Some(r.value)
    ensures r.Failure? ==> r.error == UnparseableDate(text)
  {
    match parse(text)
    case Some(t) => Success(t)
    case None => Failure(UnparseableDate(text))
  }

  /** The document's last-published timestamp: the top-level `updated`, else the channel's
      `updated`, else the first item's `published`. Only a missing field moves on to the
      next source. */
  function LastPublished(doc: Document, parse: DateParser): (r: Result<int, SyncError>)
    ensures r.Failure? ==> r.error != DuplicateEntryId
    ensures r == Failure(NoTimestamp) <==> doc.updated.None? && doc.feedUpdated.None? && doc.entries == []
  {
    if doc.updated.Some? then ParseDate(parse, doc.updated.value)
    else if doc.feedUpdated.Some? then ParseDate(parse, doc.feedUpdated.value)
    else if doc.entries == [] then Failure(NoTimestamp)
    else if doc.entries[0].published.None? then Failure(MissingPublished(doc.entries[0].id))
    else ParseDate(parse, doc.entries[0].published.value)
  }

  /** Two documents that agree on every source up to the first present one have the same
      last-published timestamp: a later source is consulted only when the earlier ones are
      missing. */
  lemma FallbackOnlyOnMissingField(d1: Document, d2: Document, parse: DateParser)
    requires d1.updated == d2.updated
    requires d1.updated.None? ==> d1.feedUpdated == d2.feedUpdated
    requires d1.updated.None? && d1.feedUpdated.None? ==>
               (d1.entries == [] <==> d2.entries == []) &&
               (d1.entries != [] ==> d1.entries[0].published == d2.entries[0].published &&
                                     d1.entries[0].id == d2.entries[0].id)
    ensures LastPublished(d1, parse) == LastPublished(d2, parse)
  {
  }

  /** A present but malformed date aborts the synchronisation instead of falling back. */
  lemma MalformedDateDoesNotFallBack(doc: Document, parse: DateParser)
    requires doc.updated.Some? && parse(doc.updated.value).None?
    ensures LastPublished(doc, parse) == Failure(UnparseableDate(doc.updated.value))
  {
  }

  // ---------------------------------------------------------------------------
  // Tags

  /** The tag terms joined in order with ", ". */
  function JoinTags(terms: seq<string>): (r: string)
    ensures |r| == SumLengths(terms) + (if terms == [] then 0 else 2 * (|terms| - 1))
    decreases |terms|
  {
    if terms == [] then ""
    else if |terms| == 1 then terms[0]
    else terms[0] + ", " + JoinTags(terms[1..])
  }

  /** The `tags` column built for an item: its joined terms, or "" when it has no tags. */
  function TagsOf(e: DocEntry): (r: string)
    ensures e.tags.None? ==> r == ""
  {
    match e.tags
    case None => ""
    case Some(terms) => JoinTags(terms)
  }

  /** The pieces of `s` between commas. */
  function SplitOnComma(s: string): (r: seq<string>)
    ensures |r| >= 1
    decreases |s|
  {
    if s == [] then [""]
    else
      var rest := SplitOnComma(s[1..]);
      if s[0] == ',' then [""] + rest else [[s[0]] + rest[0]] + rest[1..]
  }

  function DropSpace(p: string): string
  {
    if |p| > 0 && p[0] == ' ' then p[1..] else p
  }

  /** Reads a `tags` column back into its terms. */
  function SplitTags(s: string): (r: seq<string>)
    ensures |r| == |SplitOnComma(s)|
  {
    var ps := SplitOnComma(s);
    [ps[0]] + seq(|ps| - 1, i requires 0 <= i < |ps| - 1 => DropSpace(ps[i + 1]))
  }

  lemma {:induction false} SplitWithoutComma(s: string)
    requires ',' !in s
    ensures SplitOnComma(s) == [s]
    decreases |s|
  {
    if s != [] {
      SplitWithoutComma(s[1..]);
      assert [s[0]] + s[1..] == s;
    }
  }

  lemma {:induction false} SplitAtFirstComma(a: string, b: string)
    requires ',' !in a
    ensures SplitOnComma(a + [','] + b) == [a] + SplitOnComma(b)
    decreases |a|
  {
    if a == [] {
      assert a + [','] + b == [','] + b;
      assert ([','] + b)[1..] == b;
    } else {
      assert (a + [','] + b)[1..] == a[1..] + [','] + b;
      SplitAtFirstComma(a[1..], b);
      assert [a[0]] + a[1..] == a;
    }
  }

  /** Each term with the space the separator leaves in front of it. */
  function Spaced(terms: seq<string>): (r: seq<string>)
    ensures |r| == |terms|
  {
    seq(|terms|, i requires 0 <= i < |terms| => " " + terms[i])
  }

  lemma {:induction false} SplitOfJoin(terms: seq<string>)
    requires terms != []
    requires forall t :: t in terms ==> ',' !in t
    ensures SplitOnComma(JoinTags(terms)) == [terms[0]] + Spaced(terms[1..])
    decreases |terms|
  {
    if |terms| == 1 {
      SplitWithoutComma(terms[0]);
      assert Spaced(terms[1..]) == [];
    } else {
      var rest := terms[1..];
      var j := JoinTags(rest);
      SplitOfJoin(rest);
      JoinTagsCons(terms);
      SplitAtFirstComma(terms[0], [' '] + j);
      SplitAfterSpace(j);
      SpacedCons(rest);
    }
  }

  lemma JoinTagsCons(terms: seq<string>)
    requires |terms| > 1
    ensures JoinTags(terms) == terms[0] + [','] + ([' '] + JoinTags(terms[1..]))
  {
  }

  lemma SplitAfterSpace(j: string)
    ensures SplitOnComma([' '] + j) == [[' '] + SplitOnComma(j)[0]] + SplitOnComma(j)[1..]
  {
    assert ([' '] + j)[1..] == j;
  }

  lemma SpacedCons(terms: seq<string>)
    requires terms != []
    ensures Spaced(terms) == [" " + terms[0]] + Spaced(terms[1..])
  {
  }

  /** Joining tag terms that contain no comma can be read back exactly. */
  lemma JoinTagsRoundTrip(terms: seq<string>)
    requires terms != []
    requires forall t :: t in terms ==> ',' !in t
    ensures SplitTags(JoinTags(terms)) == terms
  {
    SplitOfJoin(terms);
    var r := SplitTags(JoinTags(terms));
    assert |r| == |terms|;
    var ps := SplitOnComma(JoinTags(terms));
    forall i | 0 <= i < |terms| ensures r[i] == terms[i] {
      if i > 0 {
        assert ps[i] == Spaced(terms[1..])[i - 1] == " " + terms[i];
        assert r[i] == DropSpace(ps[i]);
        assert (" " + terms[i])[1..] == terms[i];
      }
    }
  }

  /** The `tags` column of an item reads back as its tag terms when it has tags and none of
      them contains a comma, and it is empty when the item has no tags. */
  lemma TagsOfRoundTrip(e: DocEntry)
    ensures e.tags.None? ==> TagsOf(e) == ""
    ensures e.tags.Some? && e.tags.value != [] && (forall t :: t in e.tags.value ==> ',' !in t) ==>
              SplitTags(TagsOf(e)) == e.tags.value
  {
    if e.tags.Some? && e.tags.value != [] && (forall t :: t in e.tags.value ==> ',' !in t) {
      JoinTagsRoundTrip(e.tags.value);
    }
  }

  // ---------------------------------------------------------------------------
  // Building new entries

  /** `x` copies the item `e`: its id, title, link, summary and tags, the parsed publication
      date, the owning feed, and it is not sent yet. */
  predicate BuiltFrom(x: Entry, e: DocEntry, parse: DateParser, feedId: nat)
  {
    && x.entryId == e.id && x.title == e.title && x.url == e.link && x.summary == e.summary
    && x.tags == TagsOf(e) && !x.sent && x.feed == feedId
    && e.published.Some? && parse(e.published.value) == Some(x.publicationDate)
  }

  /** The item's `published` field is present and accepted by the date grammar. */
  predicate Parseable(e: DocEntry, parse: DateParser)
  {
    e.published.Some? && parse(e.published.value).Some?
  }

  /** The entry built for one item, with primary key `id`. */
  function BuildEntry(e: DocEntry, parse: DateParser, feedId: nat, id: nat): (r: Result<Entry, SyncError>)
    ensures r.Success? <==> Parseable(e, parse)
    ensures r.Success? ==> BuiltFrom(r.value, e, parse, feedId) && r.value.id == id
  {
    match e.published
    case None => Failure(MissingPublished(e.id))
    case Some(p) =>
      match parse(p)
      case None => Failure(UnparseableDate(p))
      case Some(t) => Success(Entry(id, e.id, e.title, e.summary, TagsOf(e), e.link, t, false, feedId))
  }

  /** The items, in document order, whose entry id is not stored yet. */
  function Fresh(es: seq<DocEntry>, rows: seq<Entry>): (r: seq<DocEntry>)
    ensures forall e :: e in r <==> e in es && !HasEntryId(rows, e.id)
    decreases |es|
  {
    if es == [] then []
    else
      var last := es[|es| - 1];
      assert es == es[..|es| - 1] + [last];
      Fresh(es[..|es| - 1], rows) + (if HasEntryId(rows, last.id) then [] else [last])
  }

  /** The batch the loop over the items collects: stored entry ids are skipped, every other
      item is built, with primary keys handed out from `nextId` on. */
  function NewEntries(es: seq<DocEntry>, rows: seq<Entry>, parse: DateParser, feedId: nat, nextId: nat)
    : Result<seq<Entry>, SyncError>
    decreases |es|
  {
    if es == [] then Success([])
    else
      match NewEntries(es[..|es| - 1], rows, parse, feedId, nextId)
      case Failure(err) => Failure(err)
      case Success(batch) =>
        var e := es[|es| - 1];
        if HasEntryId(rows, e.id) then Success(batch)
        else
          match BuildEntry(e, parse, feedId, nextId + |batch|)
          case Failure(err) => Failure(err)
          case Success(x) => Success(batch + [x])
  }

  /** Every fresh item has a publication date the grammar accepts. */
  predicate AllParseable(items: seq<DocEntry>, parse: DateParser)
  {
    forall k :: 0 <= k < |items| ==> Parseable(items[k], parse)
  }

  /** `batch` holds one entry per item, in order, with consecutive primary keys. */
  predicate BatchOf(batch: seq<Entry>, items: seq<DocEntry>, parse: DateParser, feedId: nat, nextId: nat)
  {
    |batch| == |items| &&
    forall k :: 0 <= k < |items| ==> batch[k].id == nextId + k && BuiltFrom(batch[k], items[k], parse, feedId)
  }

  /** The batch is exactly the fresh items, in order, each copied into an entry; it exists
      precisely when every fresh item has a parseable publication date. */
  lemma {:induction false} NewEntriesSpec(es: seq<DocEntry>, rows: seq<Entry>, parse: DateParser, feedId: nat, nextId: nat)
    ensures NewEntries(es, rows, parse, feedId, nextId).Success? <==> AllParseable(Fresh(es, rows), parse)
    ensures NewEntries(es, rows, parse, feedId, nextId).Success? ==>
              BatchOf(NewEntries(es, rows, parse, feedId, nextId).value, Fresh(es, rows), parse, feedId, nextId)
    decreases |es|
  {
    if es != [] {
      var init := es[..|es| - 1];
      var e := es[|es| - 1];
      NewEntriesSpec(init, rows, parse, feedId, nextId);
      FreshStep(es, rows);
      var f0 := Fresh(init, rows);
      var r0 := NewEntries(init, rows, parse, feedId, nextId);
      if !HasEntryId(rows, e.id) {
        AllParseableStep(f0, e, parse);
        if r0.Success? {
          var built := BuildEntry(e, parse, feedId, nextId + |r0.value|);
          if built.Success? {
            BatchOfStep(r0.value, f0, built.value, e, parse, feedId, nextId);
          }
        }
      }
    }
  }

  lemma FreshStep(es: seq<DocEntry>, rows: seq<Entry>)
    requires es != []
    ensures Fresh(es, rows) ==
            Fresh(es[..|es| - 1], rows) + (if HasEntryId(rows, es[|es| - 1].id) then [] else [es[|es| - 1]])
  {
  }

  lemma AllParseableStep(items: seq<DocEntry>, e: DocEntry, parse: DateParser)
    ensures AllParseable(items + [e], parse) <==> AllParseable(items, parse) && Parseable(e, parse)
  {
    if AllParseable(items + [e], parse) {
      assert (items + [e])[|items|] == e;
      forall k | 0 <= k < |items| ensures Parseable(items[k], parse) {
        assert (items + [e])[k] == items[k];
      }
    }
  }

  lemma BatchOfStep(batch: seq<Entry>, items: seq<DocEntry>, x: Entry, e: DocEntry, parse: DateParser,
                    feedId: nat, nextId: nat)
    requires BatchOf(batch, items, parse, feedId, nextId)
    requires x.id == nextId + |batch| && BuiltFrom(x, e, parse, feedId)
    ensures BatchOf(batch + [x], items + [e], parse, feedId, nextId)
  {
    var b := batch + [x];
    var f := items + [e];
    forall k | 0 <= k < |f| ensures b[k].id == nextId + k && BuiltFrom(b[k], f[k], parse, feedId) {
      if k < |items| {
        assert b[k] == batch[k] && f[k] == items[k];
      }
    }
  }

  /** Every stored entry id is skipped; every other item has an entry in the batch. */
  lemma NewEntriesDedup(es: seq<DocEntry>, rows: seq<Entry>, parse: DateParser, feedId: nat, nextId: nat)
    requires NewEntries(es, rows, parse, feedId, nextId).Success?
    ensures var batch := NewEntries(es, rows, parse, feedId, nextId).value;
            && (forall x :: x in batch ==> !HasEntryId(rows, x.entryId))
            && (forall e :: e in es ==> HasEntryId(rows, e.id) || exists x :: x in batch && x.entryId == e.id)
  {
    NewEntriesSpec(es, rows, parse, feedId, nextId);
    var batch := NewEntries(es, rows, parse, feedId, nextId).value;
    var newItems := Fresh(es, rows);
    forall x | x in batch ensures !HasEntryId(rows, x.entryId) {
      var k :| 0 <= k < |batch| && batch[k] == x;
      assert newItems[k] in newItems;
    }
    forall e | e in es && !HasEntryId(rows, e.id) ensures exists x :: x in batch && x.entryId == e.id {
      var k :| 0 <= k < |newItems| && newItems[k] == e;
      assert batch[k] in batch;
    }
  }

  /** When every item is already stored the batch is empty. */
  lemma NothingFreshNothingNew(es: seq<DocEntry>, rows: seq<Entry>, parse: DateParser, feedId: nat, nextId: nat)
    requires forall e :: e in es ==> HasEntryId(rows, e.id)
    ensures NewEntries(es, rows, parse, feedId, nextId) == Success([])
  {
    NewEntriesSpec(es, rows, parse, feedId, nextId);
  }

  // ---------------------------------------------------------------------------
  // One synchronisation

  /** The entries one synchronisation inserts, or the error that aborts it. New entries are
      built only when the document's timestamp is strictly older than the watermark. */
  function Sync(rows: seq<Entry>, nextId: nat, feedId: nat, lastUpdate: int, doc: Document, parse: DateParser)
    : Result<seq<Entry>, SyncError>
  {
    match LastPublished(doc, parse)
    case Failure(err) => Failure(err)
    case Success(published) =>
      if published < lastUpdate then
        match NewEntries(doc.entries, rows, parse, feedId, nextId)
        case Failure(err) => Failure(err)
        case Success(batch) => if DistinctEntryIds(batch) then Success(batch) else Failure(DuplicateEntryId)
      else Success([])
  }

  /** A timestamp equal to or newer than the watermark inserts nothing. */
  lemma SyncSkipsUnlessOlder(rows: seq<Entry>, nextId: nat, feedId: nat, lastUpdate: int, doc: Document, parse: DateParser)
    requires LastPublished(doc, parse).Success? && LastPublished(doc, parse).value >= lastUpdate
    ensures Sync(rows, nextId, feedId, lastUpdate, doc, parse) == Success([])
  {
  }

  /** A successful synchronisation keeps the entry table's integrity constraints: no entry
      id is stored twice and primary keys stay unique. */
  lemma SyncKeepsRowsValid(rows: seq<Entry>, nextId: nat, feedId: nat, lastUpdate: int, doc: Document, parse: DateParser)
    requires ValidRows(rows, nextId)
    requires Sync(rows, nextId, feedId, lastUpdate, doc, parse).Success?
    ensures var batch := Sync(rows, nextId, feedId, lastUpdate, doc, parse).value;
            ValidRows(rows + batch, nextId + |batch|)
  {
    var batch := Sync(rows, nextId, feedId, lastUpdate, doc, parse).value;
    if batch != [] {
      NewEntriesSpec(doc.entries, rows, parse, feedId, nextId);
      NewEntriesDedup(doc.entries, rows, parse, feedId, nextId);
      var all := rows + batch;
      forall i, j | 0 <= i < j < |all| ensures all[i].id != all[j].id && all[i].entryId != all[j].entryId {
        if j >= |rows| {
          assert all[j] == batch[j - |rows|] && all[j] in batch;
          if i >= |rows| {
            assert all[i] == batch[i - |rows|];
          } else {
            assert all[i] in rows;
          }
        }
      }
    }
  }

  /** After a synchronisation that built new entries, synchronising the same document
      again inserts nothing. */
  lemma {:induction false} ResyncAddsNothing(rows: seq<Entry>, nextId: nat, feedId: nat, lastUpdate: int, now: int,
                                             doc: Document, parse: DateParser)
    requires LastPublished(doc, parse).Success? && LastPublished(doc, parse).value < lastUpdate
    requires Sync(rows, nextId, feedId, lastUpdate, doc, parse).Success?
    ensures var batch := Sync(rows, nextId, feedId, lastUpdate, doc, parse).value;
            Sync(rows + batch, nextId + |batch|, feedId, now, doc, parse) == Success([])
  {
    var batch := Sync(rows, nextId, feedId, lastUpdate, doc, parse).value;
    NewEntriesDedup(doc.entries, rows, parse, feedId, nextId);
    forall e | e in doc.entries ensures HasEntryId(rows + batch, e.id) {
      if HasEntryId(rows, e.id) {
        var r :| r in rows && r.entryId == e.id;
        assert r in rows + batch;
      } else {
        var x :| x in batch && x.entryId == e.id;
        assert x in rows + batch;
      }
    }
    NothingFreshNothingNew(doc.entries, rows + batch, parse, feedId, nextId + |batch|);
  }

  /** With the comparison as written, a document whose timestamp is not older than the
      watermark is skipped, and a later synchronisation against a watermark newer than the
      timestamp builds its fresh items: the same document first inserts nothing, then one
      entry per fresh item. */
  lemma ResyncAfterSkipInserts(rows: seq<Entry>, nextId: nat, feedId: nat, w1: int, w2: int,
                               doc: Document, parse: DateParser)
    requires LastPublished(doc, parse).Success?
    requires w1 <= LastPublished(doc, parse).value < w2
    requires AllParseable(Fresh(doc.entries, rows), parse)
    ensures Sync(rows, nextId, feedId, w1, doc, parse) == Success([])
    ensures var batch := NewEntries(doc.entries, rows, parse, feedId, nextId);
            && batch.Success?
            && BatchOf(batch.value, Fresh(doc.entries, rows), parse, feedId, nextId)
            && Sync(rows, nextId, feedId, w2, doc, parse) ==
               (if DistinctEntryIds(batch.value) then Success(batch.value) else Failure(DuplicateEntryId))
  {
    NewEntriesSpec(doc.entries, rows, parse, feedId, nextId);
  }

  // ---------------------------------------------------------------------------
  // Unsent entries

  /** This feed's entries that are not sent, in table order. */
  function Unsent(rows: seq<Entry>, feedId: nat): seq<Entry>
    decreases |rows|
  {
    if rows == [] then []
    else (if rows[0].feed == feedId && !rows[0].sent then [rows[0]] else []) + Unsent(rows[1..], feedId)
  }

  lemma {:induction false} UnsentMembers(rows: seq<Entry>, feedId: nat)
    ensures forall x :: x in Unsent(rows, feedId) <==> x in rows && x.feed == feedId && !x.sent
    decreases |rows|
  {
    if rows != [] {
      UnsentMembers(rows[1..], feedId);
      assert rows == [rows[0]] + rows[1..];
    }
  }

  predicate SortedByDateDesc(s: seq<Entry>)
  {
    forall i, j :: 0 <= i < j < |s| ==> s[i].publicationDate >= s[j].publicationDate
  }

  /** Inserts `x` before the first entry that is not newer than it. */
  function InsertByDate(x: Entry, s: seq<Entry>): seq<Entry>
    decreases |s|
  {
    if s == [] || x.publicationDate >= s[0].publicationDate then [x] + s
    else [s[0]] + InsertByDate(x, s[1..])
  }

  /** Inserting adds exactly `x`. */
  lemma {:induction false} InsertByDateAddsOne(x: Entry, s: seq<Entry>)
    ensures multiset(InsertByDate(x, s)) == multiset(s) + multiset{x}
    decreases |s|
  {
    if s != [] && x.publicationDate < s[0].publicationDate {
      InsertByDateAddsOne(x, s[1..]);
      assert s == [s[0]] + s[1..];
    }
  }

  /** Inserting adds nothing but `x`. */
  lemma {:induction false} InsertByDateMembers(x: Entry, s: seq<Entry>, y: Entry)
    requires y in InsertByDate(x, s)
    ensures y == x || y in s
    decreases |s|
  {
    if s != [] && x.publicationDate < s[0].publicationDate && y != s[0] {
      InsertByDateMembers(x, s[1..], y);
    }
  }

  /** Inserting into a newest-first sequence keeps it newest-first. */
  lemma {:induction false} InsertByDateSorted(x: Entry, s: seq<Entry>)
    requires SortedByDateDesc(s)
    ensures SortedByDateDesc(InsertByDate(x, s))
    decreases |s|
  {
    var r := InsertByDate(x, s);
    if s == [] || x.publicationDate >= s[0].publicationDate {
      assert forall i :: 1 <= i < |r| ==> r[i] == s[i - 1];
    } else {
      var tail := s[1..];
      InsertByDateSorted(x, tail);
      var rest := InsertByDate(x, tail);
      assert r == [s[0]] + rest;
      forall i | 0 <= i < |rest| ensures rest[i].publicationDate <= s[0].publicationDate {
        InsertByDateMembers(x, tail, rest[i]);
        if rest[i] != x {
          var k :| 0 <= k < |tail| && tail[k] == rest[i];
          assert s[k + 1] == tail[k];
        }
      }
      assert forall i :: 1 <= i < |r| ==> r[i] == rest[i - 1];
    }
  }

  /** The entries ordered by publication date, newest first; entries with equal dates keep
      their relative order. */
  function SortByDateDesc(s: seq<Entry>): seq<Entry>
    decreases |s|
  {
    if s == [] then [] else InsertByDate(s[0], SortByDateDesc(s[1..]))
  }

  /** Sorting yields a newest-first permutation of its input. */
  lemma {:induction false} SortByDateDescSpec(s: seq<Entry>)
    ensures SortedByDateDesc(SortByDateDesc(s))
    ensures multiset(SortByDateDesc(s)) == multiset(s)
    decreases |s|
  {
    if s != [] {
      SortByDateDescSpec(s[1..]);
      assert s == [s[0]] + s[1..];
      InsertByDateSorted(s[0], SortByDateDesc(s[1..]));
      InsertByDateAddsOne(s[0], SortByDateDesc(s[1..]));
    }
  }

  /** The feed's unsent entries, in the table's default order (newest publication first). */
  function UnsentEntries(rows: seq<Entry>, feedId: nat): seq<Entry>
  {
    SortByDateDesc(Unsent(rows, feedId))
  }

  /** The unsent entries come newest first. */
  lemma UnsentEntriesSorted(rows: seq<Entry>, feedId: nat)
    ensures SortedByDateDesc(UnsentEntries(rows, feedId))
  {
    SortByDateDescSpec(Unsent(rows, feedId));
  }

  /** The unsent entries hold each of this feed's unsent rows as often as the table does. */
  lemma UnsentEntriesCounts(rows: seq<Entry>, feedId: nat)
    ensures multiset(UnsentEntries(rows, feedId)) == multiset(Unsent(rows, feedId))
  {
    SortByDateDescSpec(Unsent(rows, feedId));
  }

  /** The unsent entries are exactly this feed's entries whose `sent` is false. */
  lemma UnsentEntriesMembers(rows: seq<Entry>, feedId: nat)
    ensures forall x :: x in UnsentEntries(rows, feedId) <==> x in rows && x.feed == feedId && !x.sent
  {
    var r := UnsentEntries(rows, feedId);
    UnsentEntriesCounts(rows, feedId);
    UnsentMembers(rows, feedId);
    assert forall x :: x in r <==> x in multiset(r);
    assert forall x :: x in Unsent(rows, feedId) <==> x in multiset(Unsent(rows, feedId));
  }

  /** The loop of the synchronisation over the document's items: an item whose entry id is
      stored is skipped, every other item is built into the batch; a date error aborts. */
  method CollectNewEntries(es: seq<DocEntry>, rows: seq<Entry>, parse: DateParser, feedId: nat, nextId: nat)
    returns (r: Result<seq<Entry>, SyncError>)
    ensures r == NewEntries(es, rows, parse, feedId, nextId)
  {
    var batch: seq<Entry> := [];
    for i := 0 to |es|
      invariant NewEntries(es[..i], rows, parse, feedId, nextId) == Success(batch)
    {
      var e := es[i];
      assert es[..i + 1][..i] == es[..i];
      if !HasEntryId(rows, e.id) {
        var built := BuildEntry(e, parse, feedId, nextId + |batch|);
        if built.Failure? {
          NewEntriesPrefixFails(es, i + 1, rows, parse, feedId, nextId);
          return Failure(built.error);
        }
        batch := batch + [built.value];
      }
    }
    assert es[..|es|] == es;
    r := Success(batch);
  }

  // ---------------------------------------------------------------------------
  // Stateful entities

  /** The entry table; `nextId` is the next primary key the database hands out. */
  class EntryTable {
    var rows: seq<Entry>
    var nextId: nat

    ghost predicate Valid()
      reads this
    {
      ValidRows(rows, nextId)
    }

    constructor ()
      ensures Valid() && rows == [] && nextId == 1
    {
      rows := [];
      nextId := 1;
    }

    /** Inserts a batch whose keys and entry ids respect the table's constraints. */
    method BulkCreate(batch: seq<Entry>)
      requires ValidRows(rows + batch, nextId + |batch|)
      modifies this
      ensures Valid()
      ensures rows == old(rows) + batch && nextId == old(nextId) + |batch|
    {
      rows := rows + batch;
      nextId := nextId + |batch|;
    }
  }

  class Feed {
    const id: nat
    const name: string
    const url: string
    var lastUpdate: int

    /** A new feed; its watermark is its creation time. */
    constructor (id: nat, name: string, url: string, created: int)
      ensures this.id == id && this.name == name && this.url == url && lastUpdate == created
    {
      this.id := id;
      this.name := name;
      this.url := url;
      lastUpdate := created;
    }

    /** Fetches the feed, inserts the entries `Sync` determines and moves the watermark to
        `now`; an error leaves the table and the watermark as they were. */
    method SyncFeed(table: EntryTable, fetch: string -> Document, parse: DateParser, now: int)
      returns (r: Outcome<SyncError>)
      requires table.Valid()
      modifies this, table
      ensures table.Valid()
      ensures var s := Sync(old(table.rows), old(table.nextId), id, old(lastUpdate), fetch(url), parse);
              if s.Success? then
                && r == Pass
                && table.rows == old(table.rows) + s.value
                && table.nextId == old(table.nextId) + |s.value|
                && lastUpdate == now
              else
                && r == Fail(s.error)
                && table.rows == old(table.rows)
                && table.nextId == old(table.nextId)
                && lastUpdate == old(lastUpdate)
    {
      var doc := fetch(url);
      var published := LastPublished(doc, parse);
      if published.Failure? {
        return Fail(published.error);
      }
      if published.value < lastUpdate {
        var batch := CollectNewEntries(doc.entries, table.rows, parse, id, table.nextId);
        if batch.Failure? {
          return Fail(batch.error);
        }
        if !DistinctEntryIds(batch.value) {
          return Fail(DuplicateEntryId);
        }
        SyncKeepsRowsValid(table.rows, table.nextId, id, lastUpdate, doc, parse);
        table.BulkCreate(batch.value);
      }
      lastUpdate := now;
      r := Pass;
    }
  }

  /** An error while building the batch of a prefix of the items is the error of the whole
      document. */
  lemma {:induction false} NewEntriesPrefixFails(es: seq<DocEntry>, n: nat, rows: seq<Entry>, parse: DateParser,
                                                 feedId: nat, nextId: nat)
    requires n <= |es|
    requires NewEntries(es[..n], rows, parse, feedId, nextId).Failure?
    ensures NewEntries(es, rows, parse, feedId, nextId) == NewEntries(es[..n], rows, parse, feedId, nextId)
    decreases |es| - n
  {
    if n < |es| {
      assert es[..n + 1][..n] == es[..n];
      NewEntriesPrefixFails(es, n + 1, rows, parse, feedId, nextId);
    } else {
      assert es[..n] == es;
    }
  }
}
