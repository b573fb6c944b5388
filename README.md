# Newsletter: feed synchronisation and digest mailing

This project models the core of a small Django newsletter service. The service stores
RSS/Atom feeds, copies their new items into an entry table, and mails all unsent entries to
every subscriber as one digest. The model covers two parts:

- **Synchronising one feed** (`Feed.sync_feed`, module `Models`, file `models.dfy`). The feed
  is fetched and its "last published" timestamp is taken from the first field that is
  present, in a fixed order: the document's `updated`, then the channel's `updated`, then
  the first item's `published`. When that timestamp is strictly older than the feed's
  watermark `last_update`, each item whose entry id is not stored yet becomes an `Entry`.
  The new entries are inserted in one batch. The watermark then moves to "now".
- **The management command** (`sync_feeds`, module `SyncFeedsCommand`, file
  `sync_feeds.dfy`). It synchronises every feed in table order and then composes the digest.
  The digest holds each feed's unsent entries, grouped by feed name, and the subject line
  counts them. The command marks those entries sent and mails the digest. When the mail
  fails, exactly the captured entries are marked unsent again.

The model's stand-ins for the program's collaborators are:

- Fetching is a function `fetch: string -> Document` from URL to an already-parsed document.
- The date grammar `ddd, DD MMM YYYY HH:mm:ss` is a partial function
  `parse: string -> Option<int>` to integer timestamps.
- The clock is a value passed in: `now` for one feed, and one reading per feed for the
  whole loop.
- The mail transport is `mailer: Mail -> bool`, which tells whether delivering a mail
  succeeds.

A `Feed` is a class whose `lastUpdate` its methods update. The entry table is a class
`EntryTable` holding the rows and the next primary key the database hands out.

Every exception that escapes `sync_feed` becomes an error value (`SyncError`). This covers
a malformed date, no timestamp source at all, an item without `published`, and a batch
that repeats an entry id. An error leaves the table and the watermark unchanged, and it
stops the command before anything is mailed.

Two details of the code decide what the model does:

- The comparison at `newsletter/models.py:42` is strict. Entries are built only for a
  document whose timestamp is older than the watermark `last_update`; an equal or newer
  timestamp inserts nothing. `SyncSkipsUnlessOlder` and `ResyncAfterSkipInserts` state this.
- The fallbacks at `newsletter/models.py:33-40` catch only a missing field: the first
  `try` catches `AttributeError` and `KeyError`, the second only `AttributeError`. A present
  but malformed date raises from the parser, and the model turns that into `UnparseableDate`
  instead of moving on to the next source. `MalformedDateDoesNotFallBack` and
  `FallbackOnlyOnMissingField` state this.

## Model

| member | source | states |
|---|---|---|
| Models.LastPublished | newsletter/models.py:33-40 | the result is `NoTimestamp` exactly when the document has no `updated`, no channel `updated` and no items; it is never the batch-uniqueness error |
| Models.FallbackOnlyOnMissingField | newsletter/models.py:33-40 | documents that agree on the sources up to the first present one get the same timestamp: a later source is consulted only when the earlier ones are missing |
| Models.MalformedDateDoesNotFallBack | newsletter/models.py:34-35 | a present but malformed top-level `updated` aborts with `UnparseableDate` and does not fall back |
| Models.JoinTags | newsletter/models.py:49 | the joined tags are as long as the terms plus two characters per ", " separator |
| Models.JoinTagsRoundTrip | newsletter/models.py:49 | splitting the joined terms at ", " gives back the terms, when no term contains a comma |
| Models.TagsOfRoundTrip | newsletter/models.py:48-51 | an item without tags gets the empty tags column; for a non-empty list of comma-free terms, splitting the tags column at ", " gives back exactly the terms |
| Models.BuildEntry | newsletter/models.py:53-61 | the entry exists exactly when `published` is present and parseable; it copies id, title, link, summary and joined tags, carries the parsed date, `sent = false` and the owning feed |
| Models.Fresh | newsletter/models.py:45-47 | an item is kept exactly when it is in the document and its entry id is not stored |
| Models.NewEntriesSpec | newsletter/models.py:44-62 | the batch exists exactly when every fresh item parses; it then holds one entry per fresh item, in document order, with consecutive primary keys |
| Models.NewEntriesDedup | newsletter/models.py:45-47 | no entry of the batch has a stored entry id, and every item is either stored already or in the batch |
| Models.NothingFreshNothingNew | newsletter/models.py:45-47 | when every item is stored already the batch is empty |
| Models.CollectNewEntries | newsletter/models.py:44-62 | the loop over the items returns the batch `NewEntries` specifies, or the first date error |
| Models.SyncSkipsUnlessOlder | newsletter/models.py:42-65 | a timestamp equal to or newer than the watermark inserts nothing |
| Models.SyncKeepsRowsValid | newsletter/models.py:63-71 | a successful synchronisation keeps primary keys and entry ids unique |
| Models.ResyncAddsNothing | newsletter/models.py:42-63 | after a synchronisation that built entries, synchronising the same document again inserts nothing |
| Models.ResyncAfterSkipInserts | newsletter/models.py:42-63 | for any document whose timestamp is at or above a watermark (and whose fresh items parse), synchronising against that watermark inserts nothing, while synchronising the same rows against a watermark above the timestamp inserts one entry per fresh item (or reports the duplicate entry id) |
| Models.UnsentMembers | newsletter/models.py:26-28 | the filtered rows are exactly this feed's entries with `sent` false |
| Models.SortByDateDescSpec | newsletter/models.py:81 | ordering yields a permutation of its input, newest publication date first |
| Models.UnsentEntriesMembers | newsletter/models.py:26-28 | `unsent_entries` holds exactly this feed's entries whose `sent` is false |
| Models.UnsentEntriesCounts | newsletter/models.py:26-28 | `unsent_entries` holds each of those rows as often as the table does |
| Models.UnsentEntriesSorted | newsletter/models.py:81 | `unsent_entries` comes newest publication date first |
| Models.EntryTable.BulkCreate | newsletter/models.py:63 | the batch is appended to the table and consumes one primary key per entry |
| Models.Feed.constructor | newsletter/models.py:14-17 | a new feed's watermark is its creation time |
| Models.Feed.SyncFeed | newsletter/models.py:30-67 | on success the table grows by exactly `Sync`'s batch and the watermark becomes `now`; on an error the table and the watermark are unchanged; the table's constraints hold |
| SyncFeedsCommand.SyncAllKeepsRowsValid | newsletter/management/commands/sync_feeds.py:25-26 | synchronising all feeds keeps the table's constraints and only appends rows, even when an error stops the run |
| SyncFeedsCommand.SyncAllStops | newsletter/management/commands/sync_feeds.py:25-26 | once a feed's synchronisation fails, the feeds after it change nothing |
| SyncFeedsCommand.SyncFeeds | newsletter/management/commands/sync_feeds.py:22-27 | each feed is synchronised once, in table order; the table ends as `SyncAll` describes; the feeds before a failure get their clock reading, it and later feeds keep their watermark |
| SyncFeedsCommand.FlatList | newsletter/management/commands/sync_feeds.py:67-69 | the flat list's length is the sum of the inner lengths |
| SyncFeedsCommand.FlatListAt | newsletter/management/commands/sync_feeds.py:67-69 | element `j` of list `i` sits at the sum of the earlier lengths plus `j`, so order is kept |
| SyncFeedsCommand.FlatListMembership | newsletter/management/commands/sync_feeds.py:67-69 | an element is in the flat list exactly when it is in one of the inner lists |
| SyncFeedsCommand.MarkSentAll | newsletter/management/commands/sync_feeds.py:41 | an entry is sent afterwards exactly when it was sent or belongs to the given feeds; nothing else of it changes |
| SyncFeedsCommand.MarkNotSent | newsletter/management/commands/sync_feeds.py:71-73 | an entry is sent afterwards exactly when it was sent and its primary key is not among the ids; nothing else of it changes |
| SyncFeedsCommand.MarkEntriesAsNotSent | newsletter/management/commands/sync_feeds.py:71-73 | the table becomes `MarkNotSent` of its rows; no key is handed out |
| SyncFeedsCommand.UnsentAfterMarking | newsletter/management/commands/sync_feeds.py:35-41 | marking other feeds' entries sent does not change a feed's unsent entries |
| SyncFeedsCommand.IdsOfUnsent | newsletter/management/commands/sync_feeds.py:38 | the captured ids of a feed are exactly the primary keys of its unsent rows |
| SyncFeedsCommand.ComposeFeed | newsletter/management/commands/sync_feeds.py:35-41 | one iteration counts the feed's unsent entries and, when there are any, captures their ids, groups them and marks them sent |
| SyncFeedsCommand.ComposeDigest | newsletter/management/commands/sync_feeds.py:30-41 | the loop over the feeds yields the digest and the rows `Compose` specifies |
| SyncFeedsCommand.ComposeMarks | newsletter/management/commands/sync_feeds.py:34-41 | after the loop, every entry of every feed is sent, and nothing else changed |
| SyncFeedsCommand.ComposeCaptures | newsletter/management/commands/sync_feeds.py:35-38 | an id is captured exactly when some row with that primary key is an unsent entry of one of the feeds |
| SyncFeedsCommand.ComposeCount | newsletter/management/commands/sync_feeds.py:32-42 | `num_entries` equals the length of the flattened id lists; the groups, the id lists and the count are empty together; an empty digest leaves the rows unchanged |
| SyncFeedsCommand.UnsentIdsNoRepeats | newsletter/management/commands/sync_feeds.py:35-38 | with unique primary keys in the table, a feed's captured ids are pairwise different |
| SyncFeedsCommand.ComposeIdsNoRepeats | newsletter/management/commands/sync_feeds.py:34-41 | with unique primary keys and feed ids, the flattened captured ids are pairwise different: no entry is counted or rolled back twice |
| SyncFeedsCommand.ComposeCountsCaptured | newsletter/management/commands/sync_feeds.py:32-36 | `num_entries` is the number of distinct primary keys of the unsent entries of the visited feeds |
| SyncFeedsCommand.NothingToSendIff | newsletter/management/commands/sync_feeds.py:37-44 | the digest is empty exactly when no feed has an unsent entry |
| SyncFeedsCommand.RollbackRestores | newsletter/management/commands/sync_feeds.py:60-63 | marking the flattened captured ids unsent restores the rows exactly as they were before the digest |
| SyncFeedsCommand.GroupHoldsCaptured | newsletter/management/commands/sync_feeds.py:39-40 | every captured entry is in the mail under its feed's name |
| SyncFeedsCommand.GroupHoldsOnlyCaptured | newsletter/management/commands/sync_feeds.py:39-40 | every entry in the mail is an unsent entry of a feed with that name |
| SyncFeedsCommand.NatToStringRoundTrip | newsletter/management/commands/sync_feeds.py:53 | the decimal count in the subject reads back as the count |
| SyncFeedsCommand.SubjectDeterminesCount | newsletter/management/commands/sync_feeds.py:53 | different entry counts give different subject lines |
| SyncFeedsCommand.SendEmail | newsletter/management/commands/sync_feeds.py:29-65 | with no unsent entries nothing is mailed and nothing changes; otherwise the mail carries the count in its subject, the grouped entries and all addresses; on delivery the entries stay sent, on failure the rows are restored |
| SyncFeedsCommand.SameNameFeedsLoseEntries | newsletter/management/commands/sync_feeds.py:40 | with the grouping as written, an unsent entry of the first of two same-name feeds is captured but missing from the mail; with the merged grouping it is present |
| SyncFeedsCommand.Handle | newsletter/management/commands/sync_feeds.py:18-20 | a synchronisation error ends the run before mailing and leaves the rows the synchronisations made; otherwise every feed gets its clock reading, the outcome is the one `SendEmail` specifies for the digest composed from the synchronised rows, a delivered mail leaves every entry of every feed sent, and an undelivered one leaves the rows as the synchronisations made them |

## Left out

- Fetching and XML parsing (`feedparser.parse`) are not modelled. The document is given by the `fetch` parameter.
- The date grammar is not modelled. It is the `parse` parameter.
- Time zones are left out. Timestamps are integers, and the Europe/Madrid "now" is a clock value passed in.
- The `arrow` and `datetime` calls are left out because they are foreign calls.
- Rendering `email.html`, the sender address (`EMAIL_HOST_USER`) and SMTP are not modelled. The mail carries the template context, the subject and the recipients.
- Logging and the `__str__` methods are left out because they have no effect on state.
- Field length limits (`max_length=255`) and URL and e-mail validation are left out. They are database-level checks that the synchronisation never triggers on purpose.
- Item attributes other than `published` and `tags` (id, title, link, summary) are always present. A missing one raises `AttributeError` in the program; the model does not represent that crash.
- A tag without a `term` is not modelled. Tags are a sequence of term strings.
- Concurrent runs of the command, and the database's transaction isolation, are left out. Each operation is atomic in the model.
- Dictionary insertion order of the digest groups is not modelled. The groups are a `map` keyed by feed name.
- Unsent entries with equal publication dates keep their table order in the model. The database leaves that order unspecified.
- `SendEmail`: the entries are marked sent before the mail is handed over, as in the program. The contract cannot observe this ordering, because the modelled mailer sees only the mail.
- `SendEmail` groups the entries of same-name feeds together (the corrected grouping). The grouping as written is `GroupsAsWritten`; see Findings.
- The admin configuration (`newsletter/admin.py`) is not part of this model.

## Findings

| source | as written | input that shows it | evidently intended | confidence | as-written member | corrected member |
|---|---|---|---|---|---|---|
| newsletter/management/commands/sync_feeds.py:40 | `feed_entries[feed.name] = entry_list` replaces the group of an earlier feed with the same name. Feed names are unique only together with the URL. | Two feeds both named "Blog" with URLs `http://a` and `http://b`, each with one unsent entry. The first feed's entry is counted in the subject and marked sent, yet it is not in the mailed digest, so it is never mailed. | Every entry that is counted and marked sent appears in the digest under its feed's name. | not executed | SyncFeedsCommand.SameNameFeedsLoseEntries (with `GroupsAsWritten`) | SyncFeedsCommand.GroupHoldsCaptured (with `AddGroup`, used by `SendEmail`) |
