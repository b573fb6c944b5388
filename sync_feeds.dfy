/**
 * The scheduled command: synchronise every feed in table order, then gather every feed's
 * unsent entries into one digest, mark them sent, mail the digest to all subscribers and,
 * when the mail cannot be delivered, mark exactly the captured entries unsent again.
 *
 * The mail transport is a collaborator: `mailer` tells whether delivering a given mail
 * succeeds. Rendering the digest template is not part of this model; the mail carries the
 * template's context (the entries grouped by feed name) instead of the rendered body.
 */
module SyncFeedsCommand {
  import opened Wrappers
  import opened Seqs
  import opened Models

  // ---------------------------------------------------------------------------
  // Feeds as the command sees them

  /** The constant columns of a feed. */
  datatype FeedKey = FeedKey(id: nat, name: string, url: string)

  /** A feed's columns at the time it is synchronised. */
  datatype FeedState = FeedState(id: nat, url: string, lastUpdate: int)

  function Keys(feeds: seq<Feed>): (r: seq<FeedKey>)
    ensures |r| == |feeds|
    ensures forall i :: 0 <= i < |feeds| ==> r[i] == FeedKey(feeds[i].id, feeds[i].name, feeds[i].url)
  {
    seq(|feeds|, i requires 0 <= i < |feeds| => FeedKey(feeds[i].id, feeds[i].name, feeds[i].url))
  }

  ghost function States(feeds: seq<Feed>): (r: seq<FeedState>)
    reads feeds
    ensures |r| == |feeds|
    ensures forall i :: 0 <= i < |feeds| ==> r[i] == FeedState(feeds[i].id, feeds[i].url, feeds[i].lastUpdate)
  {
    seq(|feeds|, i requires 0 <= i < |feeds| reads feeds => FeedState(feeds[i].id, feeds[i].url, feeds[i].lastUpdate))
  }

  /** Primary keys of feeds are unique. */
  predicate DistinctIds(keys: seq<FeedKey>)
  {
    forall i, j :: 0 <= i < j < |keys| ==> keys[i].id != keys[j].id
  }

  /** The feed table's constraints: unique primary keys and unique (name, url) pairs. */
  predicate UniqueFeeds(keys: seq<FeedKey>)
  {
    DistinctIds(keys) &&
    forall i, j :: 0 <= i < j < |keys| ==> (keys[i].name, keys[i].url) != (keys[j].name, keys[j].url)
  }

  function KeyIds(keys: seq<FeedKey>): set<nat>
  {
    set k | k in keys :: k.id
  }

  // ---------------------------------------------------------------------------
  // Synchronising every feed

  /** Which feed's synchronisation raised, and what. */
  datatype FeedFailure = FeedFailure(index: nat, error: SyncError)

  /** The entry table after a run of synchronisations, and the error that stopped it, if any. */
  datatype SyncReport = SyncReport(rows: seq<Entry>, nextId: nat, failure: Option<FeedFailure>)

  /** The synchronisations of `fs`, one after the other, each seeing the entries the
      earlier ones inserted; the first error stops the run. */
  function SyncAll(rows: seq<Entry>, nextId: nat, fs: seq<FeedState>, fetch: string -> Document, parse: DateParser)
    : (r: SyncReport)
    ensures r.failure.Some? ==> r.failure.value.index < |fs|
    decreases |fs|
  {
    if fs == [] then SyncReport(rows, nextId, None)
    else
      var before := SyncAll(rows, nextId, fs[..|fs| - 1], fetch, parse);
      if before.failure.Some? then before
      else SyncNext(before, fs[|fs| - 1], |fs| - 1, fetch, parse)
  }

  /** The synchronisation of one more feed, the `index`-th, after a run without error. */
  function SyncNext(before: SyncReport, f: FeedState, index: nat, fetch: string -> Document, parse: DateParser)
    : SyncReport
  {
    match Sync(before.rows, before.nextId, f.id, f.lastUpdate, fetch(f.url), parse)
    case Failure(err) => before.(failure := Some(FeedFailure(index, err)))
    case Success(batch) => SyncReport(before.rows + batch, before.nextId + |batch|, None)
  }

  lemma SyncAllStep(rows: seq<Entry>, nextId: nat, fs: seq<FeedState>, i: nat, fetch: string -> Document,
                    parse: DateParser)
    requires i < |fs|
    requires SyncAll(rows, nextId, fs[..i], fetch, parse).failure.None?
    ensures SyncAll(rows, nextId, fs[..i + 1], fetch, parse) ==
            SyncNext(SyncAll(rows, nextId, fs[..i], fetch, parse), fs[i], i, fetch, parse)
  {
    assert fs[..i + 1][..i] == fs[..i];
  }

  /** Synchronising all feeds keeps the entry table's integrity constraints, and only ever
      appends to it, whether or not the run was stopped by an error. */
  lemma {:induction false} SyncAllKeepsRowsValid(rows: seq<Entry>, nextId: nat, fs: seq<FeedState>,
                                                 fetch: string -> Document, parse: DateParser)
    requires ValidRows(rows, nextId)
    ensures var s := SyncAll(rows, nextId, fs, fetch, parse);
            ValidRows(s.rows, s.nextId) && rows <= s.rows
    decreases |fs|
  {
    if fs != [] {
      var init := fs[..|fs| - 1];
      var f := fs[|fs| - 1];
      SyncAllKeepsRowsValid(rows, nextId, init, fetch, parse);
      var before := SyncAll(rows, nextId, init, fetch, parse);
      if before.failure.None? {
        var s := Sync(before.rows, before.nextId, f.id, f.lastUpdate, fetch(f.url), parse);
        if s.Success? {
          SyncKeepsRowsValid(before.rows, before.nextId, f.id, f.lastUpdate, fetch(f.url), parse);
          PrefixAppend(rows, before.rows, s.value);
        }
      }
    }
  }

  lemma PrefixAppend(a: seq<Entry>, b: seq<Entry>, c: seq<Entry>)
    requires a <= b
    ensures a <= b + c
  {
    assert (b + c)[..|a|] == b[..|a|];
  }

  /** Once a run has stopped, the feeds after the failing one change nothing. */
  lemma {:induction false} SyncAllStops(rows: seq<Entry>, nextId: nat, fs: seq<FeedState>, n: nat,
                                        fetch: string -> Document, parse: DateParser)
    requires n <= |fs|
    requires SyncAll(rows, nextId, fs[..n], fetch, parse).failure.Some?
    ensures SyncAll(rows, nextId, fs, fetch, parse) == SyncAll(rows, nextId, fs[..n], fetch, parse)
    decreases |fs| - n
  {
    if n < |fs| {
      assert fs[..n + 1][..n] == fs[..n];
      SyncAllStops(rows, nextId, fs, n + 1, fetch, parse);
    } else {
      assert fs[..n] == fs;
    }
  }

  /** Distinct primary keys make distinct feed objects. */
  lemma DistinctFeeds(feeds: seq<Feed>)
    requires DistinctIds(Keys(feeds))
    ensures forall i, j :: 0 <= i < |feeds| && 0 <= j < |feeds| && i != j ==> feeds[i] != feeds[j]
  {
    forall i, j | 0 <= i < |feeds| && 0 <= j < |feeds| && i != j ensures feeds[i] != feeds[j] {
      var keys := Keys(feeds);
      if i < j {
        assert keys[i].id != keys[j].id;
      } else {
        assert keys[j].id != keys[i].id;
      }
    }
  }

  /** Synchronises each feed once, in table order, reading the clock once per feed. An error
      escapes at the first feed whose synchronisation raises; the feeds before it are
      synchronised, it and the feeds after it are untouched. */
  method SyncFeeds(feeds: seq<Feed>, table: EntryTable, fetch: string -> Document, parse: DateParser, clock: seq<int>)
    returns (r: Outcome<FeedFailure>)
    requires DistinctIds(Keys(feeds)) && |clock| == |feeds|
    requires table.Valid()
    modifies feeds, table
    ensures table.Valid()
    ensures var s := SyncAll(old(table.rows), old(table.nextId), old(States(feeds)), fetch, parse);
            var done := if s.failure.None? then |feeds| else s.failure.value.index;
            && r == (if s.failure.None? then Pass else Fail(s.failure.value))
            && table.rows == s.rows && table.nextId == s.nextId
            && (forall i :: 0 <= i < done ==> feeds[i].lastUpdate == clock[i])
            && (forall i :: done <= i < |feeds| ==> feeds[i].lastUpdate == old(feeds[i].lastUpdate))
  {
    ghost var fs := States(feeds);
    ghost var rows0, nextId0 := table.rows, table.nextId;
    DistinctFeeds(feeds);
    assert fs[..0] == [];
    for i := 0 to |feeds|
      invariant SyncAll(rows0, nextId0, fs[..i], fetch, parse) == SyncReport(table.rows, table.nextId, None)
      invariant forall j :: 0 <= j < |feeds| ==> feeds[j].lastUpdate == if j < i then clock[j] else fs[j].lastUpdate
    {
      SyncAllStep(rows0, nextId0, fs, i, fetch, parse);
      SyncAllKeepsRowsValid(rows0, nextId0, fs[..i], fetch, parse);
      assert fs[i] == FeedState(feeds[i].id, feeds[i].url, feeds[i].lastUpdate);
      assert forall j :: 0 <= j < |feeds| && j != i ==> feeds[j] != feeds[i];
      var outcome := feeds[i].SyncFeed(table, fetch, parse, clock[i]);
      if outcome.Fail? {
        SyncAllStops(rows0, nextId0, fs, i + 1, fetch, parse);
        return Fail(FeedFailure(i, outcome.error));
      }
    }
    assert fs[..|feeds|] == fs;
    SyncAllKeepsRowsValid(rows0, nextId0, fs, fetch, parse);
    r := Pass;
  }

  // ---------------------------------------------------------------------------
  // Flattening and marking

  /** The id lists concatenated in order. */
  function FlatList<T>(xss: seq<seq<T>>): (r: seq<T>)
    ensures |r| == SumLengths(xss)
    decreases |xss|
  {
    if xss == [] then [] else xss[0] + FlatList(xss[1..])
  }

  lemma {:induction false} FlatListAppend<T>(xss: seq<seq<T>>, yss: seq<seq<T>>)
    ensures FlatList(xss + yss) == FlatList(xss) + FlatList(yss)
    decreases |xss|
  {
    if xss != [] {
      assert (xss + yss)[1..] == xss[1..] + yss;
      FlatListAppend(xss[1..], yss);
    } else {
      assert xss + yss == yss;
    }
  }

  /** Element `j` of list `i` sits right after all elements of the lists before it. */
  lemma {:induction false} FlatListAt<T>(xss: seq<seq<T>>, i: nat, j: nat)
    requires i < |xss| && j < |xss[i]|
    ensures SumLengths(xss[..i]) + j < |FlatList(xss)|
    ensures FlatList(xss)[SumLengths(xss[..i]) + j] == xss[i][j]
    decreases i
  {
    if i > 0 {
      FlatListAt(xss[1..], i - 1, j);
      assert xss[..i][1..] == xss[1..][..i - 1];
    } else {
      assert xss[..0] == [];
    }
  }

  /** An element is in the flattened list exactly when it is in one of the lists. */
  lemma {:induction false} FlatListMembership<T>(xss: seq<seq<T>>, x: T)
    ensures x in FlatList(xss) <==> exists i :: 0 <= i < |xss| && x in xss[i]
    decreases |xss|
  {
    if xss != [] {
      FlatListMembership(xss[1..], x);
      if exists i :: 1 <= i < |xss| && x in xss[i] {
        var i :| 1 <= i < |xss| && x in xss[i];
        assert xss[1..][i - 1] == xss[i];
      }
      if exists i :: 0 <= i < |xss[1..]| && x in xss[1..][i] {
        var i :| 0 <= i < |xss[1..]| && x in xss[1..][i];
        assert xss[i + 1] == xss[1..][i];
      }
    }
  }

  /** The primary keys of the entries, in order. */
  function Ids(es: seq<Entry>): (r: seq<nat>)
    ensures |r| == |es|
    ensures forall k :: 0 <= k < |es| ==> r[k] == es[k].id
  {
    seq(|es|, k requires 0 <= k < |es| => es[k].id)
  }

  /** The update "sent = True" on the entries of the feeds in `feedIds`. */
  function MarkSentAll(rows: seq<Entry>, feedIds: set<nat>): (r: seq<Entry>)
    ensures |r| == |rows|
    ensures forall k :: 0 <= k < |rows| ==> r[k].sent == (rows[k].sent || rows[k].feed in feedIds)
    ensures forall k :: 0 <= k < |rows| ==> r[k] == rows[k].(sent := r[k].sent)
  {
    seq(|rows|, k requires 0 <= k < |rows| => if rows[k].feed in feedIds then rows[k].(sent := true) else rows[k])
  }

  /** The update "sent = False" on the entries whose primary key is in `ids`. */
  function MarkNotSent(rows: seq<Entry>, ids: seq<nat>): (r: seq<Entry>)
    ensures |r| == |rows|
    ensures forall k :: 0 <= k < |rows| ==> r[k].sent == (rows[k].sent && rows[k].id !in ids)
    ensures forall k :: 0 <= k < |rows| ==> r[k] == rows[k].(sent := r[k].sent)
  {
    seq(|rows|, k requires 0 <= k < |rows| => if rows[k].id in ids then rows[k].(sent := false) else rows[k])
  }

  /** Marks the entries with the given primary keys as not sent; nothing else changes. */
  method MarkEntriesAsNotSent(table: EntryTable, ids: seq<nat>)
    modifies table
    ensures table.rows == MarkNotSent(old(table.rows), ids)
    ensures table.nextId == old(table.nextId)
  {
    table.rows := MarkNotSent(table.rows, ids);
  }

  // ---------------------------------------------------------------------------
  // Composing the digest

  /** Adds a feed's unsent entries under its name, after those of an earlier feed with the
      same name. */
  function AddGroup(groups: map<string, seq<Entry>>, name: string, es: seq<Entry>): map<string, seq<Entry>>
  {
    groups[name := (if name in groups then groups[name] else []) + es]
  }

  /** The template context, the captured id lists and the entry count. */
  datatype Digest = Digest(groups: map<string, seq<Entry>>, idLists: seq<seq<nat>>, count: nat)

  /** The digest gathered so far and the entry rows after marking. */
  datatype Composed = Composed(digest: Digest, rows: seq<Entry>)

  /** The loop over the feeds: each feed's unsent entries are counted, their ids captured,
      grouped under the feed's name and marked sent. */
  function Compose(rows: seq<Entry>, keys: seq<FeedKey>): Composed
    decreases |keys|
  {
    if keys == [] then Composed(Digest(map[], [], 0), rows)
    else ComposeNext(Compose(rows, keys[..|keys| - 1]), keys[|keys| - 1])
  }

  /** One iteration of the loop, for the feed `k`. */
  function ComposeNext(c: Composed, k: FeedKey): Composed
  {
    var es := UnsentEntries(c.rows, k.id);
    if |es| == 0 then c
    else
      Composed(Digest(AddGroup(c.digest.groups, k.name, es), c.digest.idLists + [Ids(es)], c.digest.count + |es|),
               MarkSentAll(c.rows, {k.id}))
  }

  lemma ComposeStep(rows: seq<Entry>, keys: seq<FeedKey>, i: nat)
    requires i < |keys|
    ensures Compose(rows, keys[..i + 1]) == ComposeNext(Compose(rows, keys[..i]), keys[i])
  {
    assert keys[..i + 1][..i] == keys[..i];
  }

  /** The entry is one the digest takes: unsent and owned by one of the feeds. */
  predicate Captured(e: Entry, feedIds: set<nat>)
  {
    e.feed in feedIds && !e.sent
  }

  lemma DistinctIdsPrefix(keys: seq<FeedKey>)
    requires DistinctIds(keys) && keys != []
    ensures DistinctIds(keys[..|keys| - 1])
    ensures KeyIds(keys) == KeyIds(keys[..|keys| - 1]) + {keys[|keys| - 1].id}
    ensures keys[|keys| - 1].id !in KeyIds(keys[..|keys| - 1])
  {
    var init := keys[..|keys| - 1];
    assert keys == init + [keys[|keys| - 1]];
    forall k | k in init ensures k.id != keys[|keys| - 1].id {
      var j :| 0 <= j < |init| && init[j] == k;
      assert keys[j] == k;
    }
  }

  /** Marking other feeds' entries does not change a feed's unsent entries. */
  lemma {:induction false} UnsentAfterMarking(rows: seq<Entry>, feedIds: set<nat>, feedId: nat)
    requires feedId !in feedIds
    ensures UnsentEntries(MarkSentAll(rows, feedIds), feedId) == UnsentEntries(rows, feedId)
  {
    UnsentPrefixAfterMarking(rows, feedIds, feedId);
  }

  lemma {:induction false} UnsentPrefixAfterMarking(rows: seq<Entry>, feedIds: set<nat>, feedId: nat)
    requires feedId !in feedIds
    ensures Unsent(MarkSentAll(rows, feedIds), feedId) == Unsent(rows, feedId)
    decreases |rows|
  {
    if rows != [] {
      assert MarkSentAll(rows, feedIds)[1..] == MarkSentAll(rows[1..], feedIds);
      UnsentPrefixAfterMarking(rows[1..], feedIds, feedId);
    }
  }

  /** Marking in two steps is marking once. */
  lemma MarkSentTwice(rows: seq<Entry>, feedIds: set<nat>, feedId: nat)
    ensures MarkSentAll(MarkSentAll(rows, feedIds), {feedId}) == MarkSentAll(rows, feedIds + {feedId})
  {
  }

  /** Marking a feed without unsent entries changes nothing. */
  lemma MarkSentNothingUnsent(rows: seq<Entry>, feedIds: set<nat>, feedId: nat)
    requires UnsentEntries(rows, feedId) == []
    ensures MarkSentAll(rows, feedIds + {feedId}) == MarkSentAll(rows, feedIds)
  {
    UnsentEntriesMembers(rows, feedId);
    var a := MarkSentAll(rows, feedIds + {feedId});
    var b := MarkSentAll(rows, feedIds);
    forall j | 0 <= j < |rows| ensures a[j] == b[j] {
      assert rows[j] in rows;
    }
  }

  /** Composing marks every entry of the visited feeds as sent, and nothing else changes. */
  lemma {:induction false} ComposeMarks(rows: seq<Entry>, keys: seq<FeedKey>)
    requires DistinctIds(keys)
    ensures Compose(rows, keys).rows == MarkSentAll(rows, KeyIds(keys))
    decreases |keys|, 1
  {
    if keys == [] {
      assert MarkSentAll(rows, {}) == rows;
    } else {
      var init := keys[..|keys| - 1];
      var k := keys[|keys| - 1];
      DistinctIdsPrefix(keys);
      ComposeMarks(rows, init);
      ComposeNextAfter(rows, keys);
      if |UnsentEntries(rows, k.id)| == 0 {
        MarkSentNothingUnsent(rows, KeyIds(init), k.id);
      } else {
        MarkSentTwice(rows, KeyIds(init), k.id);
      }
    }
  }

  /** What one feed contributes: its unsent entries as the table had them at the start. */
  lemma ComposeNextAfter(rows: seq<Entry>, keys: seq<FeedKey>)
    requires DistinctIds(keys) && keys != []
    ensures var c := Compose(rows, keys[..|keys| - 1]);
            var k := keys[|keys| - 1];
            UnsentEntries(c.rows, k.id) == UnsentEntries(rows, k.id)
    decreases |keys|, 0
  {
    DistinctIdsPrefix(keys);
    ComposeMarks(rows, keys[..|keys| - 1]);
    UnsentAfterMarking(rows, KeyIds(keys[..|keys| - 1]), keys[|keys| - 1].id);
  }

  /** Some row with primary key `x` is an unsent entry of one of the feeds. */
  predicate CapturedId(rows: seq<Entry>, x: nat, feedIds: set<nat>)
  {
    exists j :: 0 <= j < |rows| && rows[j].id == x && Captured(rows[j], feedIds)
  }

  lemma CapturedIdUnion(rows: seq<Entry>, x: nat, a: set<nat>, b: set<nat>)
    ensures CapturedId(rows, x, a + b) <==> CapturedId(rows, x, a) || CapturedId(rows, x, b)
  {
    if CapturedId(rows, x, a + b) {
      var j :| 0 <= j < |rows| && rows[j].id == x && Captured(rows[j], a + b);
      assert Captured(rows[j], a) || Captured(rows[j], b);
    }
  }

  /** The primary keys of a feed's unsent entries. */
  lemma IdsOfUnsent(rows: seq<Entry>, feedId: nat, x: nat)
    ensures x in Ids(UnsentEntries(rows, feedId)) <==> CapturedId(rows, x, {feedId})
  {
    var es := UnsentEntries(rows, feedId);
    UnsentEntriesMembers(rows, feedId);
    if x in Ids(es) {
      var i :| 0 <= i < |es| && Ids(es)[i] == x;
      assert es[i] in es;
      var j :| 0 <= j < |rows| && rows[j] == es[i];
      assert Captured(rows[j], {feedId});
    }
    if CapturedId(rows, x, {feedId}) {
      var j :| 0 <= j < |rows| && rows[j].id == x && Captured(rows[j], {feedId});
      assert rows[j] in rows;
      var i :| 0 <= i < |es| && es[i] == rows[j];
      assert Ids(es)[i] == x;
    }
  }

  /** The captured primary keys are exactly those of the entries the digest takes. */
  lemma {:induction false} ComposeCaptures(rows: seq<Entry>, keys: seq<FeedKey>, x: nat)
    requires DistinctIds(keys)
    ensures x in FlatList(Compose(rows, keys).digest.idLists) <==> CapturedId(rows, x, KeyIds(keys))
    decreases |keys|
  {
    if keys == [] {
      assert Compose(rows, keys).digest.idLists == [];
      assert KeyIds(keys) == {};
    } else {
      var init := keys[..|keys| - 1];
      var k := keys[|keys| - 1];
      DistinctIdsPrefix(keys);
      ComposeCaptures(rows, init, x);
      ComposeNextAfter(rows, keys);
      IdsOfUnsent(rows, k.id, x);
      CapturedIdUnion(rows, x, KeyIds(init), {k.id});
      var c := Compose(rows, init);
      var es := UnsentEntries(rows, k.id);
      if |es| > 0 {
        FlatListAppend(c.digest.idLists, [Ids(es)]);
        assert FlatList([Ids(es)]) == Ids(es);
      }
    }
  }

  /** The count is the number of captured ids, and the grouping, the id lists and the count
      are empty together. */
  lemma {:induction false} ComposeCount(rows: seq<Entry>, keys: seq<FeedKey>)
    ensures var d := Compose(rows, keys).digest;
            && d.count == |FlatList(d.idLists)|
            && (d.groups == map[] <==> d.idLists == [])
            && (d.idLists == [] <==> d.count == 0)
            && (d.groups == map[] ==> Compose(rows, keys).rows == rows)
    decreases |keys|
  {
    if keys != [] {
      var init := keys[..|keys| - 1];
      var k := keys[|keys| - 1];
      ComposeCount(rows, init);
      var c := Compose(rows, init);
      var es := UnsentEntries(c.rows, k.id);
      if |es| > 0 {
        FlatListAppend(c.digest.idLists, [Ids(es)]);
        assert FlatList([Ids(es)]) == Ids(es);
        assert k.name in Compose(rows, keys).digest.groups;
      }
    }
  }

  lemma UniqueKeysTail(rows: seq<Entry>)
    requires UniquePrimaryKeys(rows) && rows != []
    ensures UniquePrimaryKeys(rows[1..])
    ensures forall y :: y in rows[1..] ==> y.id != rows[0].id
  {
    var tail := rows[1..];
    forall y | y in tail ensures y.id != rows[0].id {
      var k :| 0 <= k < |tail| && tail[k] == y;
      assert rows[k + 1] == y;
    }
  }

  lemma {:induction false} UnsentKeysUnique(rows: seq<Entry>, feedId: nat)
    requires UniquePrimaryKeys(rows)
    ensures UniquePrimaryKeys(Unsent(rows, feedId))
    decreases |rows|
  {
    if rows != [] {
      var tail := rows[1..];
      UniqueKeysTail(rows);
      UnsentKeysUnique(tail, feedId);
      UnsentMembers(tail, feedId);
      var u := Unsent(tail, feedId);
      var r := Unsent(rows, feedId);
      if rows[0].feed == feedId && !rows[0].sent {
        assert r == [rows[0]] + u;
        forall i, j | 0 <= i < j < |r| ensures r[i].id != r[j].id {
          assert r[j] == u[j - 1];
          if 0 < i {
            assert r[i] == u[i - 1];
          }
        }
      }
    }
  }

  lemma {:induction false} InsertKeepsKeysUnique(x: Entry, s: seq<Entry>)
    requires UniquePrimaryKeys(s) && forall y :: y in s ==> y.id != x.id
    ensures UniquePrimaryKeys(InsertByDate(x, s))
    decreases |s|
  {
    var r := InsertByDate(x, s);
    if s == [] || x.publicationDate >= s[0].publicationDate {
      assert forall i :: 1 <= i < |r| ==> r[i] == s[i - 1];
    } else {
      var tail := s[1..];
      UniqueKeysTail(s);
      InsertKeepsKeysUnique(x, tail);
      var rest := InsertByDate(x, tail);
      assert r == [s[0]] + rest;
      forall i, j | 0 <= i < j < |r| ensures r[i].id != r[j].id {
        if i == 0 {
          InsertByDateMembers(x, tail, rest[j - 1]);
        } else {
          assert r[i] == rest[i - 1] && r[j] == rest[j - 1];
        }
      }
    }
  }

  lemma {:induction false} SortKeepsKeysUnique(s: seq<Entry>)
    requires UniquePrimaryKeys(s)
    ensures UniquePrimaryKeys(SortByDateDesc(s))
    decreases |s|
  {
    if s != [] {
      UniqueKeysTail(s);
      SortKeepsKeysUnique(s[1..]);
      SortByDateDescSpec(s[1..]);
      var t := SortByDateDesc(s[1..]);
      forall y | y in t ensures y.id != s[0].id {
        assert y in multiset(t);
      }
      InsertKeepsKeysUnique(s[0], t);
    }
  }

  /** A feed's unsent entries carry pairwise different primary keys. */
  lemma UnsentIdsNoRepeats(rows: seq<Entry>, feedId: nat)
    requires UniquePrimaryKeys(rows)
    ensures NoRepeats(Ids(UnsentEntries(rows, feedId)))
  {
    UnsentKeysUnique(rows, feedId);
    SortKeepsKeysUnique(Unsent(rows, feedId));
  }

  /** No primary key is captured twice, so the rollback touches each entry once. */
  lemma {:induction false} ComposeIdsNoRepeats(rows: seq<Entry>, keys: seq<FeedKey>)
    requires UniquePrimaryKeys(rows) && DistinctIds(keys)
    ensures NoRepeats(FlatList(Compose(rows, keys).digest.idLists))
    decreases |keys|
  {
    if keys != [] {
      var init := keys[..|keys| - 1];
      var k := keys[|keys| - 1];
      DistinctIdsPrefix(keys);
      ComposeIdsNoRepeats(rows, init);
      ComposeNextAfter(rows, keys);
      var c := Compose(rows, init);
      var es := UnsentEntries(rows, k.id);
      if |es| > 0 {
        var flat0 := FlatList(c.digest.idLists);
        UnsentIdsNoRepeats(rows, k.id);
        forall x | x in flat0 ensures x !in Ids(es) {
          ComposeCaptures(rows, init, x);
          IdsOfUnsent(rows, k.id, x);
        }
        NoRepeatsAppend(flat0, Ids(es));
        FlatListAppend(c.digest.idLists, [Ids(es)]);
        assert FlatList([Ids(es)]) == Ids(es);
      }
    }
  }

  /** The primary keys of the entries the digest takes. */
  function CapturedIds(rows: seq<Entry>, feedIds: set<nat>): set<nat>
  {
    set j | 0 <= j < |rows| && Captured(rows[j], feedIds) :: rows[j].id
  }

  lemma CapturedIdsMembers(rows: seq<Entry>, feedIds: set<nat>, x: nat)
    ensures x in CapturedIds(rows, feedIds) <==> CapturedId(rows, x, feedIds)
  {
  }

  /** The count in the subject is the number of distinct entries the digest takes. */
  lemma ComposeCountsCaptured(rows: seq<Entry>, keys: seq<FeedKey>)
    requires UniquePrimaryKeys(rows) && DistinctIds(keys)
    ensures Compose(rows, keys).digest.count == |CapturedIds(rows, KeyIds(keys))|
  {
    var flat := FlatList(Compose(rows, keys).digest.idLists);
    ComposeCount(rows, keys);
    ComposeIdsNoRepeats(rows, keys);
    NoRepeatsCard(flat);
    SameMembers(rows, keys, flat);
  }

  lemma SameMembers(rows: seq<Entry>, keys: seq<FeedKey>, flat: seq<nat>)
    requires DistinctIds(keys) && flat == FlatList(Compose(rows, keys).digest.idLists)
    ensures CapturedIds(rows, KeyIds(keys)) == Elements(flat)
  {
    forall x ensures x in CapturedIds(rows, KeyIds(keys)) <==> x in flat {
      CapturedIdsMembers(rows, KeyIds(keys), x);
      ComposeCaptures(rows, keys, x);
    }
  }

  /** Nothing is sent exactly when no feed has an unsent entry. */
  lemma NothingToSendIff(rows: seq<Entry>, keys: seq<FeedKey>)
    requires DistinctIds(keys)
    ensures Compose(rows, keys).digest.groups == map[] <==>
            forall e :: e in rows ==> !Captured(e, KeyIds(keys))
  {
    var d := Compose(rows, keys).digest;
    ComposeCount(rows, keys);
    var flat := FlatList(d.idLists);
    if d.groups != map[] {
      ComposeCaptures(rows, keys, flat[0]);
      var j :| 0 <= j < |rows| && rows[j].id == flat[0] && Captured(rows[j], KeyIds(keys));
      assert rows[j] in rows;
    } else {
      forall e | e in rows ensures !Captured(e, KeyIds(keys)) {
        var j :| 0 <= j < |rows| && rows[j] == e;
        ComposeCaptures(rows, keys, e.id);
      }
    }
  }

  /** Marking the captured primary keys as not sent restores the rows as they were before
      the digest was composed. */
  lemma RollbackRestores(rows: seq<Entry>, keys: seq<FeedKey>)
    requires UniquePrimaryKeys(rows) && DistinctIds(keys)
    ensures var c := Compose(rows, keys);
            MarkNotSent(c.rows, FlatList(c.digest.idLists)) == rows
  {
    var c := Compose(rows, keys);
    var flat := FlatList(c.digest.idLists);
    var feedIds := KeyIds(keys);
    ComposeMarks(rows, keys);
    var r := MarkNotSent(c.rows, flat);
    forall k | 0 <= k < |rows| ensures r[k] == rows[k] {
      ComposeCaptures(rows, keys, rows[k].id);
    }
  }

  /** Every entry the digest takes appears in the mail under the name of its feed. */
  lemma {:induction false} GroupHoldsCaptured(rows: seq<Entry>, keys: seq<FeedKey>, j: nat, e: Entry)
    requires DistinctIds(keys)
    requires j < |keys| && e in rows && e.feed == keys[j].id && !e.sent
    ensures var g := Compose(rows, keys).digest.groups;
            keys[j].name in g && e in g[keys[j].name]
    decreases |keys|
  {
    var init := keys[..|keys| - 1];
    var k := keys[|keys| - 1];
    DistinctIdsPrefix(keys);
    ComposeNextAfter(rows, keys);
    var g0 := Compose(rows, init).digest.groups;
    var es := UnsentEntries(rows, k.id);
    if j < |init| {
      assert init[j] == keys[j];
      GroupHoldsCaptured(rows, init, j, e);
      assert e in g0[keys[j].name];
    } else {
      UnsentEntriesMembers(rows, k.id);
      assert e in es;
    }
  }

  /** Every entry in the mail is an unsent entry of a feed with that name. */
  lemma {:induction false} GroupHoldsOnlyCaptured(rows: seq<Entry>, keys: seq<FeedKey>, name: string, e: Entry)
    requires DistinctIds(keys)
    requires var g := Compose(rows, keys).digest.groups; name in g && e in g[name]
    ensures e in rows && !e.sent
    ensures exists j :: 0 <= j < |keys| && keys[j].name == name && keys[j].id == e.feed
    decreases |keys|
  {
    var init := keys[..|keys| - 1];
    var k := keys[|keys| - 1];
    var c := Compose(rows, init);
    var es := UnsentEntries(c.rows, k.id);
    DistinctIdsPrefix(keys);
    if |es| > 0 {
      AddGroupMembers(c.digest.groups, k.name, es, name, e);
    }
    if name in c.digest.groups && e in c.digest.groups[name] {
      GroupHoldsOnlyCaptured(rows, init, name, e);
      var j :| 0 <= j < |init| && init[j].name == name && init[j].id == e.feed;
      assert keys[j] == init[j];
    } else {
      ComposeNextAfter(rows, keys);
      UnsentEntriesMembers(rows, k.id);
      assert keys[|keys| - 1].name == name && keys[|keys| - 1].id == e.feed;
    }
  }

  /** A group after adding holds the entries it held before and the added ones, and nothing else. */
  lemma AddGroupMembers(groups: map<string, seq<Entry>>, added: string, es: seq<Entry>, name: string, e: Entry)
    ensures var g := AddGroup(groups, added, es);
            name in g && e in g[name] <==> (name in groups && e in groups[name]) || (name == added && e in es)
  {
  }

  // ---------------------------------------------------------------------------
  // The mail

  function Digit(d: nat): char
    requires d < 10
  {
    ('0' as int + d) as char
  }

  function DigitValue(c: char): nat
  {
    if '0' <= c <= '9' then (c as int - '0' as int) as nat else 0
  }

  /** The decimal representation of `n`. */
  function NatToString(n: nat): (s: string)
    ensures |s| > 0
    decreases n
  {
    if n < 10 then [Digit(n)] else NatToString(n / 10) + [Digit(n % 10)]
  }

  function StringToNat(s: string): nat
    decreases |s|
  {
    if s == [] then 0 else 10 * StringToNat(s[..|s| - 1]) + DigitValue(s[|s| - 1])
  }

  lemma {:induction false} NatToStringRoundTrip(n: nat)
    ensures StringToNat(NatToString(n)) == n
    decreases n
  {
    var s := NatToString(n);
    if n < 10 {
      assert s[..0] == [];
    } else {
      NatToStringRoundTrip(n / 10);
      assert s[..|s| - 1] == NatToString(n / 10);
    }
  }

  const SubjectPrefix: string := "Álex Newsletter ("

  /** The subject line, which embeds the number of entries in the digest. */
  function Subject(count: nat): string
  {
    SubjectPrefix + NatToString(count) + ")"
  }

  /** Different entry counts give different subject lines. */
  lemma SubjectDeterminesCount(a: nat, b: nat)
    requires Subject(a) == Subject(b)
    ensures a == b
  {
    var n := |SubjectPrefix|;
    assert NatToString(a) == Subject(a)[n..|Subject(a)| - 1];
    assert NatToString(b) == Subject(b)[n..|Subject(b)| - 1];
    NatToStringRoundTrip(a);
    NatToStringRoundTrip(b);
  }

  /** The subscribers' addresses, in table order. */
  function Emails(subscribers: seq<Subscriber>): (r: seq<string>)
    ensures |r| == |subscribers|
    ensures forall i :: 0 <= i < |subscribers| ==> r[i] == subscribers[i].email
  {
    seq(|subscribers|, i requires 0 <= i < |subscribers| => subscribers[i].email)
  }

  /** What the command hands to the mail transport. */
  datatype Mail = Mail(subject: string, feedEntries: map<string, seq<Entry>>, recipients: seq<string>)

  datatype SendOutcome = NothingToSend | Delivered(mail: Mail) | DeliveryFailed(mail: Mail)

  /** Marking entries sent keeps the entry table's integrity constraints. */
  lemma MarkSentAllKeepsRowsValid(rows: seq<Entry>, nextId: nat, feedIds: set<nat>)
    requires ValidRows(rows, nextId)
    ensures ValidRows(MarkSentAll(rows, feedIds), nextId)
  {
    var r := MarkSentAll(rows, feedIds);
    assert forall k :: 0 <= k < |rows| ==> r[k].id == rows[k].id && r[k].entryId == rows[k].entryId;
  }

  /** The loop over the feeds: gathers the digest and marks its entries sent. */
  method ComposeDigest(feeds: seq<Feed>, table: EntryTable) returns (digest: Digest)
    modifies table
    ensures Compose(old(table.rows), Keys(feeds)) == Composed(digest, table.rows)
    ensures table.nextId == old(table.nextId)
  {
    ghost var keys := Keys(feeds);
    ghost var rows0 := table.rows;
    digest := Digest(map[], [], 0);
    assert keys[..0] == [];
    for i := 0 to |feeds|
      invariant Compose(rows0, keys[..i]) == Composed(digest, table.rows)
      invariant table.nextId == old(table.nextId)
    {
      ComposeStep(rows0, keys, i);
      digest := ComposeFeed(feeds[i], table, digest);
    }
    assert keys[..|feeds|] == keys;
  }

  /** One iteration of the loop: the feed's unsent entries are counted and, when there are
      any, their ids captured, grouped under the feed's name and marked sent. */
  method ComposeFeed(feed: Feed, table: EntryTable, digest: Digest) returns (next: Digest)
    modifies table
    ensures Composed(next, table.rows) ==
            ComposeNext(Composed(digest, old(table.rows)), FeedKey(feed.id, feed.name, feed.url))
    ensures table.nextId == old(table.nextId)
  {
    var entries := UnsentEntries(table.rows, feed.id);
    var numEntries := digest.count + |entries|;
    next := digest.(count := numEntries);
    if |entries| > 0 {
      next := Digest(AddGroup(digest.groups, feed.name, entries), digest.idLists + [Ids(entries)], numEntries);
      table.rows := MarkSentAll(table.rows, {feed.id});
    }
  }

  /** Composes the digest, marks its entries sent and mails it; if the mail fails, exactly
      the captured entries are marked unsent again. */
  method SendEmail(feeds: seq<Feed>, table: EntryTable, subscribers: seq<Subscriber>, mailer: Mail -> bool)
    returns (outcome: SendOutcome)
    requires DistinctIds(Keys(feeds))
    requires table.Valid()
    modifies table
    ensures table.Valid() && table.nextId == old(table.nextId)
    ensures !outcome.Delivered? ==> table.rows == old(table.rows)
    ensures var d := Compose(old(table.rows), Keys(feeds)).digest;
            var mail := Mail(Subject(d.count), d.groups, Emails(subscribers));
            if d.groups == map[] then
              outcome == NothingToSend
            else if mailer(mail) then
              outcome == Delivered(mail) && table.rows == MarkSentAll(old(table.rows), KeyIds(Keys(feeds)))
            else
              outcome == DeliveryFailed(mail)
  {
    ghost var rows0 := table.rows;
    var digest := ComposeDigest(feeds, table);
    ComposeMarks(rows0, Keys(feeds));
    ComposeCount(rows0, Keys(feeds));
    MarkSentAllKeepsRowsValid(rows0, table.nextId, KeyIds(Keys(feeds)));
    if digest.groups == map[] {
      return NothingToSend;
    }
    var mail := Mail(Subject(digest.count), digest.groups, Emails(subscribers));
    if mailer(mail) {
      outcome := Delivered(mail);
    } else {
      RollbackRestores(rows0, Keys(feeds));
      MarkEntriesAsNotSent(table, FlatList(digest.idLists));
      outcome := DeliveryFailed(mail);
    }
  }

  /** The grouping as the command builds it, where a later feed's entries replace those of an
      earlier feed with the same name. */
  function GroupsAsWritten(rows: seq<Entry>, keys: seq<FeedKey>): map<string, seq<Entry>>
    decreases |keys|
  {
    if keys == [] then map[]
    else
      var c := Compose(rows, keys[..|keys| - 1]);
      var g := GroupsAsWritten(rows, keys[..|keys| - 1]);
      var k := keys[|keys| - 1];
      var es := UnsentEntries(c.rows, k.id);
      if |es| == 0 then g else g[k.name := es]
  }

  /** Two feeds may share a name when their URLs differ. With the grouping as written, an
      unsent entry of the first feed is captured (and so counted and marked sent), yet it is
      missing from the mail as soon as the second feed has unsent entries too; with the
      merged grouping it is in the group of its feed's name. */
  lemma SameNameFeedsLoseEntries(rows: seq<Entry>, k1: FeedKey, k2: FeedKey, e: Entry)
    requires UniqueFeeds([k1, k2]) && k1.name == k2.name
    requires e in rows && e.feed == k1.id && !e.sent
    requires UnsentEntries(rows, k2.id) != []
    ensures var c := Compose(rows, [k1, k2]);
            var g := GroupsAsWritten(rows, [k1, k2]);
            && e.id in FlatList(c.digest.idLists)
            && k1.name in g && e !in g[k1.name]
            && k1.name in c.digest.groups && e in c.digest.groups[k1.name]
  {
    var keys := [k1, k2];
    assert KeyIds(keys) == {k1.id, k2.id};
    ComposeCaptures(rows, keys, e.id);
    var j :| 0 <= j < |rows| && rows[j] == e;
    assert Captured(rows[j], KeyIds(keys));
    GroupHoldsCaptured(rows, keys, 0, e);
    ComposeNextAfter(rows, keys);
    assert keys[..1] == [k1] && [k1][..0] == [];
    UnsentEntriesMembers(rows, k2.id);
    assert GroupsAsWritten(rows, keys)[k1.name] == UnsentEntries(rows, k2.id);
  }

  // ---------------------------------------------------------------------------
  // The command

  datatype RunOutcome = SyncCrashed(failure: FeedFailure) | Completed(sent: SendOutcome)

  /** Synchronises every feed and then sends the digest; an error escaping a feed's
      synchronisation ends the run before anything is mailed. */
  method Handle(feeds: seq<Feed>, table: EntryTable, subscribers: seq<Subscriber>, fetch: string -> Document,
                parse: DateParser, clock: seq<int>, mailer: Mail -> bool)
    returns (r: RunOutcome)
    requires DistinctIds(Keys(feeds)) && |clock| == |feeds|
    requires table.Valid()
    modifies feeds, table
    ensures table.Valid()
    ensures var s := SyncAll(old(table.rows), old(table.nextId), old(States(feeds)), fetch, parse);
            && (s.failure.Some? <==> r.SyncCrashed?)
            && (s.failure.Some? ==> r.failure == s.failure.value && table.rows == s.rows)
            && (s.failure.None? ==> forall i :: 0 <= i < |feeds| ==> feeds[i].lastUpdate == clock[i])
            && (s.failure.None? && !r.sent.Delivered? ==> table.rows == s.rows)
            && (s.failure.None? && r.sent.Delivered? ==> table.rows == MarkSentAll(s.rows, KeyIds(Keys(feeds))))
  ensures var s := SyncAll(old(table.rows), old(table.nextId), old(States(feeds)), fetch, parse);
          var d := Compose(s.rows, Keys(feeds)).digest;
          var mail := Mail(Subject(d.count), d.groups, Emails(subscribers));
          s.failure.None? ==>
            r.sent == if d.groups == map[] then NothingToSend else if mailer(mail) then Delivered(mail) else DeliveryFailed(mail)
  {
    var synced := SyncFeeds(feeds, table, fetch, parse, clock);
    if synced.Fail? {
      return SyncCrashed(synced.error);
    }
    var sent := SendEmail(feeds, table, subscribers, mailer);
    r := Completed(sent);
  }
}
