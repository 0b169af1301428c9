# AlbertoX3 core, modelled in Dafny

AlbertoX3 is a Discord bot. This project models the parts of it that hold its
logic, as distinct from the Discord and database plumbing:

- **Stores.** Each store is a table keyed by one column, and some have a cache
  in front:
  - settings, with typed values stored as text;
  - permission levels;
  - statistics counters;
  - blocked users;
  - money;
  - the item and inventory tables;
  - member activity times.

  Each is a class whose fields are maps. A cache is a second map that may lose
  entries at any time (its TTL expiry is an `Evict` method), and `Valid()`
  says that every cached entry agrees with the table.
- **The event gate.** This wrapper sits in front of every raw gateway event
  processor. It collects the user IDs an event carries. It raises the
  contributor event. For a blocked user other than the owner, it runs only the
  moderation listeners and never the processor.
- **Translations.**
  - The recursive `merge` of translation trees.
  - The per-namespace list of sources and the per-language cache.
  - The fallback from the current language to the fallback language.
  - Plural selection in translation dictionaries.
- **Automod scores.** The tokenizer of the bad-word pattern, the sum of the
  weights of the listed words or links found in a message, and the `www.`
  prefix that link matching ignores.
- **Small pure helpers.**
  - Member and user lookup from text (mention, `name#discriminator`, name,
    nickname).
  - The leetspeak converter.
  - The contributor enumeration's ID accessors and their "false data" markers.
  - The `scale:name` keys of the bot's enumerations.
  - The money emoji tiers.

Integers are unbounded. Database column widths play no part in any property
proved here.

Times are integer microseconds since the epoch. Numbers given to
`fromtimestamp` yield the host's wall-clock time; `localOffset` is the host's
offset from UTC. The source then labels that result as UTC, and the model
keeps that behaviour.

Where an operation reads the clock ("now"), the current language of the
request, or the bot's configuration, the value is a parameter.

## Model

| member | source | states |
|---|---|---|
| NoAliasEnum.Scale | AlbertoX3/enum.py:17-21 | the scale is the text after the last dot of the package (the whole package when it has no dot) and holds no dot |
| NoAliasEnum.ScaleOfKeyPrefix | AlbertoX3/enum.py:23-25 | the scale of a key `scale:name` reads back as the scale when the scale holds no colon |
| NoAliasEnum.KeySplit | AlbertoX3/enum.py:23-25 | `a:b` keys with colon-free scales are equal only when scale and name are equal |
| NoAliasEnum.ScaleOfPlainPackage | AlbertoX3/enum.py:17-21 | the scale of a package name without `:` holds no `:` |
| NoAliasEnum.FullnameInjective | AlbertoX3/enum.py:23-25 | two members of packages without `:` that have the same full name have the same scale and name |
| Text.ShowNat | AlbertoX3/settings.py:25-29 | `str` of a natural number is digits only |
| Text.ParseShowNat | AlbertoX3/settings.py:44-47 | reading back the decimal text of a natural number gives the number |
| Text.ParseShow | AlbertoX3/settings.py:44-47 | `int(str(n)) == n` for every integer |
| Language.ConvertTo1337 | AlbertoX3/utils/language.py:40-57 | the result has the input's length and each character is replaced independently |
| Language.ChangedCharacters | AlbertoX3/utils/language.py:25-37 | a character changes exactly when its lower case is a key of the table, and then becomes the table's digit |
| Language.CaseInsensitive | AlbertoX3/utils/language.py:54-57 | converting commutes with lower-casing |
| Language.SampleLetters | AlbertoX3/utils/language.py:25-37 | "e"/"E" become "3" and "g"/"G" become "9" (the table's `"g": "6"` line is commented out) |
| Language.NoKeyLeft | AlbertoX3/utils/language.py:25-37 | no character of the output is a key of the table |
| Language.Idempotent | AlbertoX3/utils/language.py:40-57 | converting twice is converting once |
| Contributor.DiscordId | AlbertoX3/contributor.py:23-27 | the ID is absent exactly when the lower-cased `str` of the value is a false-data marker |
| Contributor.DiscordMention | AlbertoX3/contributor.py:29-31 | a mention `<@id>` exists exactly when the ID is present and truthy |
| Contributor.Github | AlbertoX3/contributor.py:33-50 | a marker gives (None, None); anything else must have exactly two elements, otherwise it is an error; the ID is present exactly when its text is numeric and no marker, and is then `int` of that text; the node ID is kept when it is no marker |
| Contributor.GithubId | AlbertoX3/contributor.py:52-54 | the first component of `github`, with its errors |
| Contributor.GithubNodeId | AlbertoX3/contributor.py:56-58 | the second component of `github`, with its errors |
| Contributor.PositiveIsNotMarker | AlbertoX3/contributor.py:15-17 | a positive integer is never a false-data marker |
| Contributor.PositiveDiscordIdIsMentioned | AlbertoX3/contributor.py:23-31 | a positive Discord ID is kept and mentioned as `<@id>` |
| Contributor.NonEmptyTupleIsNotMarker | AlbertoX3/contributor.py:15-17 | a tuple with elements is never a marker |
| Contributor.NonEmptyListIsNotMarker | AlbertoX3/contributor.py:15-17 | a list with elements is never a marker |
| Contributor.EmptySequencesAreMarkers | AlbertoX3/contributor.py:15-17 | the empty tuple and the empty list are markers, through the texts "()" and "[]" |
| Contributor.GithubListAsTuple | AlbertoX3/contributor.py:33-50 | a GitHub field written as a list reads exactly as the tuple with the same elements, since `tuple(map(str, ...))` takes any iterable |
| Contributor.GithubPairIsKept | AlbertoX3/contributor.py:33-50 | a (positive ID, node ID) pair is kept as given |
| Contributor.GithubNoneNodeIsText | AlbertoX3/contributor.py:37-48 | a `None` node ID becomes the text "None", since elements are converted with `str` before the marker check |
| Lookup.FirstIndex | AlbertoX3/utils.py:32-47 | the first index satisfying a predicate, or none when no element does |
| Lookup.FirstWhere | AlbertoX3/utils.py:40-47 | the element at the least index satisfying a predicate (every earlier element fails it), or none when no element satisfies it |
| Lookup.MentionDigits | AlbertoX3/utils.py:25-27 | a recognised text carries an ID of 15 to 20 ASCII digits |
| Lookup.MentionRecognised | AlbertoX3/utils.py:25 | each form the pattern accepts (optional `<`, `@`, `!`, the ID, optional `>`, optional final newline) yields exactly its ID |
| Lookup.MentionOnlyFromForms | AlbertoX3/utils.py:25 | a recognised text is one of those forms around the ID it yields |
| Lookup.LastHash | AlbertoX3/utils.py:30-31 | the position of the last `#`, or none when there is none |
| Lookup.SplitTag | AlbertoX3/utils.py:30-31 | `rpartition("#")` splits a tag into a name and a discriminator without `#` |
| Lookup.ObjectsAsIs | AlbertoX3/utils.py:16-20 | a member is returned as itself, and a user or member yields its user |
| Lookup.IdAndItsText | AlbertoX3/utils.py:21-22 | an integer ID and its decimal text resolve to the same member and user |
| Lookup.ResolvesByMention | AlbertoX3/utils.py:21-27 | a recognised text resolves by its ID, whether it takes the numeric branch (the bare ID) or the mention branch |
| Lookup.MentionResolvesById | AlbertoX3/utils.py:21-27 | every form of a mention resolves to the member or user with its ID |
| Lookup.MemberPrecedence | AlbertoX3/utils.py:29-49 | text that is neither numeric nor a mention: the member at the least index matching the tag wins; failing any, the least index with the user name; failing any, the least index with the nickname; none exactly when no member matches in any way |
| Lookup.MemberNotFound | AlbertoX3/utils.py:29-49 | `get_member` finds nothing exactly when no member matches the tag, the name or the nickname |
| Lookup.UserPrecedence | AlbertoX3/utils.py:69-89 | the same for `get_user`: least index in the user cache by tag, then by name, then the user of the member at the least index with the nickname; none exactly when nothing matches |
| Lookup.UserNotFound | AlbertoX3/utils.py:69-89 | `get_user` finds nothing exactly when no cached user matches the tag or the name and no member has the nickname |
| AutoMod.Excluded | AlbertoX3/scales/moderation/automod/__init__.py:51-53 | the negated class of `RE_WORD` on every code point; in particular ASCII letters are word characters and every other ASCII character separates words |
| AutoMod.RunLength | AlbertoX3/scales/moderation/automod/__init__.py:51-53 | the longest prefix of word characters |
| AutoMod.Tokens | AlbertoX3/scales/moderation/automod/__init__.py:51-53 | every match of the word pattern is a non-empty run of word characters |
| AutoMod.TokensOfWord | AlbertoX3/scales/moderation/automod/__init__.py:51-53 | a single word is found as itself |
| AutoMod.RunLengthOfWord | AlbertoX3/scales/moderation/automod/__init__.py:51-53 | a text of word characters is one run |
| AutoMod.RunLengthOfJoin | AlbertoX3/scales/moderation/automod/__init__.py:51-53 | a run stops at a separator |
| AutoMod.TokensSplit | AlbertoX3/scales/moderation/automod/__init__.py:51-53 | the matches of `a + sep + b` are the matches of `a` followed by those of `b` |
| AutoMod.ScoreAgainst | AlbertoX3/scales/moderation/automod/__init__.py:95-107 | nothing found scores 0 |
| AutoMod.ScoreDependsOnFoundSet | AlbertoX3/scales/moderation/automod/__init__.py:95-107 | the score depends only on which keys were found, not how often or in which order |
| AutoMod.ScoreBounds | AlbertoX3/scales/moderation/automod/__init__.py:95-107 | with non-negative weights, the score lies between 0 and the sum of all weights |
| AutoMod.ScoreMonotone | AlbertoX3/scales/moderation/automod/__init__.py:95-107 | finding more keys never lowers the score |
| AutoMod.RepeatedMessageCountsOnce | AlbertoX3/scales/moderation/automod/__init__.py:95-107 | a message repeated after a space scores what it scores once |
| AutoMod.WwwIsIgnored | AlbertoX3/scales/moderation/automod/__init__.py:80-92 | a link with and without `www.` scores the same |
| AutoMod.BadWordScoreAsWritten | AlbertoX3/scales/moderation/automod/__init__.py:95-107 | as written, the score is an error as soon as the table has a row |
| AutoMod.ScamLinkScoreAsWritten | AlbertoX3/scales/moderation/automod/__init__.py:80-92 | as written, the score is an error exactly when some listed link is found |
| AutoMod.BadWordDiscrepancy | AlbertoX3/scales/moderation/automod/__init__.py:95-107 | one row "scam" of weight 5: as written an error, as intended 5 |
| AutoMod.ScamLinkDiscrepancy | AlbertoX3/scales/moderation/automod/__init__.py:80-92 | one listed link found with `www.`: as written an error, as intended its weight |
| Translations.Merged | AlbertoX3/translations.py:21-46 | the merged tree has the keys of both trees |
| Translations.Merge | AlbertoX3/translations.py:21-46 | the loop over the source's keys, recursing where both sides are dictionaries, computes `Merged` |
| Translations.MergeStep | AlbertoX3/translations.py:40-44 | one iteration writes exactly one key's merged value |
| Translations.MergeIdentities | AlbertoX3/translations.py:21-46 | merging an empty tree, or into an empty tree, gives the other tree |
| Translations.MergeSelf | AlbertoX3/translations.py:21-46 | merging a tree into itself gives the tree |
| Translations.MergeIdempotent | AlbertoX3/translations.py:21-46 | merging the same source twice is merging it once |
| Translations.SourceLeafWins | AlbertoX3/translations.py:40-44 | a non-dictionary value of the source replaces what the base has at that path |
| Translations.BasePathKept | AlbertoX3/translations.py:40-44 | a path of the base survives unless the source puts a non-dictionary value on its way |
| Translations.GetAttr | AlbertoX3/translations.py:69-78 | attribute access succeeds exactly when the fallback has the item; the own value wins over the fallback's |
| Translations.PluralKey | AlbertoX3/translations.py:56-67 | "one" exactly for 1, "zero" exactly for 0 with a zero form, "many" otherwise |
| Translations.Call | AlbertoX3/translations.py:56-67 | the form chosen is read with the fallback rules of attribute access; the result is Ok exactly when that yields a text, and is then that text |
| Translations.CntBeforeCount | AlbertoX3/translations.py:57 | `cnt` takes precedence over `count` |
| Translations.ZeroWithoutZeroForm | AlbertoX3/translations.py:62 | without a zero form, 0 uses the same form as no count at all |
| Translations.LastSourceWins | AlbertoX3/translations.py:99-106 | a leaf of the last source added wins in the built language |
| Translations.BuildHasAllKeys | AlbertoX3/translations.py:99-106 | every top-level key of every source file is in the built language |
| Translations.FallbackOnlyWhenMissing | AlbertoX3/translations.py:110-115 | the fallback language is consulted only when the current one lacks the key |
| Translations.Namespace.AddSource | AlbertoX3/translations.py:89-91 | the source is appended and the language cache cleared |
| Translations.Namespace.GetLanguage | AlbertoX3/translations.py:93-108 | unsupported languages are an error; otherwise the cached tree or the one built from the sources, which is then cached |
| Translations.Namespace.GetTranslation | AlbertoX3/translations.py:110-115 | the result is `Translation` of the sources |
| Translations.Namespace.Attr | AlbertoX3/translations.py:117-126 | texts and dictionaries are wrapped, the latter with the fallback language's entry as their fallback |
| Translations.Registry.Register | AlbertoX3/translations.py:136-143 | a namespace is created once and extended afterwards; other namespaces are unchanged |
| Events.BlockList.IsBlocked | AlbertoX3/events.py:63-69 | the answer is table membership; a cache hit changes nothing, a miss caches the answer |
| Events.BlockList.Block | AlbertoX3/events.py:43-51 | reports whether the user was not yet blocked; afterwards the user is blocked and cached as such |
| Events.BlockList.Unblock | AlbertoX3/events.py:53-61 | reports whether the user was blocked; afterwards the user is not blocked and cached as such |
| Events.BlockScenario | AlbertoX3/events.py:43-69 | blocking twice reports a change once; blocked users read as blocked; unblocking releases them |
| Events.CollectIds | AlbertoX3/events.py:82-98 | the IDs are exactly `user_id`, `author_id`, `user.id` and `author.id` where present |
| Events.Collect | AlbertoX3/events.py:79-98 | the method collects `CollectIds` |
| Events.BlockedListeners | AlbertoX3/events.py:117-134 | one moderation listener for the six blocked event names, none for any other |
| Events.PlainDispatch | AlbertoX3/events.py:104-108 | the processor always runs, and the contributor event when a contributor's ID is among the IDs |
| Events.VisitOne | AlbertoX3/events.py:104-114 | visiting one more ID extends the visited set and the contributor listeners by that ID |
| Events.Gate.Visit | AlbertoX3/events.py:104-138 | a blocked suspect (an ID other than the owner's) is found exactly when one exists; without one, the listeners are the contributor listeners |
| Events.Gate.Dispatch | AlbertoX3/events.py:78-142 | counts the event; the processor runs exactly when no suspect is blocked, then with the contributor event as in `PlainDispatch`; otherwise the moderation listener of the event runs |
| Events.Bot.ApplyBlockEventsAdapter | AlbertoX3/events.py:145-150 | every processor is wrapped once, under the same name |
| Settings.Encode | AlbertoX3/settings.py:25-29 | booleans are stored as "1"/"0", integers as text that reads back as the integer, texts as they are |
| Settings.Decode | AlbertoX3/settings.py:44-47 | reading yields the requested type; texts always read, booleans and integers exactly when `int` reads the text |
| Settings.DecodeEncode | AlbertoX3/settings.py:25-47 | every stored value reads back as itself |
| Settings.BoolDecoding | AlbertoX3/settings.py:44-47 | "0" reads false, "1" reads true, any integer text reads true exactly when not zero |
| Settings.Answer | AlbertoX3/settings.py:44-47 | a read value has the requested type; a failure carries the stored text |
| Settings.SettingsStore.Create | AlbertoX3/settings.py:25-29 | a new row holds the encoded value |
| Settings.SettingsStore.Get | AlbertoX3/settings.py:33-47 | cache hit, table hit, no row and no default, no row with a default: each leaves the table and cache as stated |
| Settings.SettingsStore.Set | AlbertoX3/settings.py:51-63 | the row and its cache entry hold the encoded value |
| Settings.SettingsStore.EnumGet | AlbertoX3/settings.py:71-72 | reads the member's full name with its value as default |
| Settings.SettingsStore.SetAsWritten | AlbertoX3/settings.py:74-76 | as written, an existing setting is left as it is |
| Settings.SettingsStore.EnumSet | AlbertoX3/settings.py:74-76 | as intended, the setting is written |
| Settings.SettingsStore.Reset | AlbertoX3/settings.py:78-79 | through the corrected `set` (see Findings), the setting is written back to its default; as written, `reset` is `SetAsWritten` at the default and leaves an existing row unchanged |
| Settings.SetThenGet | AlbertoX3/settings.py:51-72 | after setting a value, reading gives that value |
| Settings.SetDiscrepancy | AlbertoX3/settings.py:74-76 | a setting read once then set to 2 reads 1 as written and 2 as intended |
| Permissions.PermissionStore.Create | AlbertoX3/permissions.py:21-23 | a new row at the given level |
| Permissions.PermissionStore.Get | AlbertoX3/permissions.py:25-35 | the stored level, or the default, which is then stored; the level is cached |
| Permissions.PermissionStore.Set | AlbertoX3/permissions.py:37-46 | the row and its cache entry hold the level |
| Permissions.SetThenGet | AlbertoX3/permissions.py:25-46 | after setting a level, reading gives it, whatever the default |
| Stats.StatsTable.Get | AlbertoX3/stats.py:18-22 | a missing counter is created at 0 |
| Stats.StatsTable.Incr | AlbertoX3/stats.py:24-28 | only the named counter grows, by the amount |
| Stats.StatsTable.IncrMember | AlbertoX3/stats.py:32-34 | the member's counter grows by 1 |
| Stats.StatsTable.Reset | AlbertoX3/stats.py:36-39 | the named counter is 0 |
| Stats.StatsTable.ResetMember | AlbertoX3/stats.py:36-39 | the member's counter is 0 |
| Stats.FreshCounters | AlbertoX3/stats.py:18-39 | one increment by `v` of a fresh counter gives `v`; after a reset, one increment of the member's counter gives 1 |
| Ledger.Sum | AlbertoX3/scales/social/money/__init__.py:28-30 | the loop over the rows adds up the column |
| Ledger.TotalUpdate | AlbertoX3/scales/social/money/__init__.py:28-30 | writing one row moves the sum by the difference |
| Ledger.TotalOfZeros | AlbertoX3/scales/social/money/__init__.py:28-30 | rows that hold nothing sum to 0 |
| Money.RelativeUpdateShiftsTotal | AlbertoX3/scales/social/money/models.py:15-25 | a relative update moves the global money by exactly the amount |
| Money.AbsoluteUpdateTotal | AlbertoX3/scales/social/money/models.py:15-25 | an absolute update makes the global money what the others have plus the amount |
| Money.MoneyTable.Get | AlbertoX3/scales/social/money/models.py:27-33 | a missing row is created at 0 |
| Money.MoneyTable.Update | AlbertoX3/scales/social/money/models.py:15-25 | only the user's row changes, to the amount or by it |
| Money.MoneyTable.GlobalMoney | AlbertoX3/scales/social/money/__init__.py:28-30 | the sum of all amounts |
| Money.MoneyTable.GetEmoji | AlbertoX3/scales/social/money/__init__.py:33-43 | a missing or zero global amount is recomputed from the table |
| Money.Tier | AlbertoX3/scales/social/money/__init__.py:33-43 | each emoji exactly for its interval of the amount relative to the global amount |
| Money.ThresholdOverIntegers | AlbertoX3/scales/social/money/__init__.py:35-41 | `global / k <= amount` in exact division is `global <= k * amount` |
| Money.TierMonotone | AlbertoX3/scales/social/money/__init__.py:33-43 | a larger amount never gets a lower tier |
| Money.GlobalGetsMoneyBag | AlbertoX3/scales/social/money/__init__.py:66 | the global amount itself gets the money bag |
| Money.NothingGetsDollar | AlbertoX3/scales/social/money/__init__.py:33-43 | with positive global money, nothing gets the dollar |
| Inventory.FromArgs | AlbertoX3/scales/social/inventory/models.py:24-38 | not buyable, no price and no cap unless given |
| Inventory.Seeded | AlbertoX3/scales/social/inventory/__init__.py:110-113 | existing items stay as they are; each missing defined item is added |
| Inventory.SeedingIdempotent | AlbertoX3/scales/social/inventory/__init__.py:110-113 | seeding twice is seeding once |
| Inventory.ItemRows | AlbertoX3/scales/social/inventory/models.py:46-52 | the rows of one item |
| Inventory.ItemRowsAfterWrite | AlbertoX3/scales/social/inventory/models.py:65-76 | writing a row changes only that item's rows |
| Inventory.UpdateMovesClaimed | AlbertoX3/scales/social/inventory/models.py:46-76 | a relative update moves the claimed amount of the item by the quantity and leaves other items' rows |
| Inventory.EnumerationUnique | AlbertoX3/scales/social/inventory/__init__.py:73 | only one ascending sequence lists a set of items |
| Inventory.ListingUnique | AlbertoX3/scales/social/inventory/__init__.py:73-85 | the listing is determined by the quantities |
| Inventory.Min | AlbertoX3/scales/social/inventory/__init__.py:73 | the smallest item ID |
| Inventory.Listing | AlbertoX3/scales/social/inventory/__init__.py:73-85 | items in ascending order, zero quantities skipped, and a single placeholder exactly when none is listed |
| Inventory.CheckItem | AlbertoX3/scales/social/inventory/__init__.py:31-44 | the item is shown exactly when the argument is a described item, an integer and an item row; the quantity line exactly when the item has a cap |
| Inventory.Store.AddItem | AlbertoX3/scales/social/inventory/models.py:24-38 | a new item row from the arguments |
| Inventory.Store.GetItem | AlbertoX3/scales/social/inventory/models.py:40-44 | the item row, or none |
| Inventory.Store.ClaimedAmount | AlbertoX3/scales/social/inventory/models.py:46-52 | the sum of the quantities held of the item |
| Inventory.Store.UserInventory | AlbertoX3/scales/social/inventory/models.py:89-91 | exactly the user's rows |
| Inventory.Store.GetRow | AlbertoX3/scales/social/inventory/models.py:88-94 | a missing row is created at 0 |
| Inventory.Store.Update | AlbertoX3/scales/social/inventory/models.py:65-76 | only the (user, item) row changes, to the quantity or by it |
| Inventory.Store.CreateAllItems | AlbertoX3/scales/social/inventory/__init__.py:110-113 | the item table becomes `Seeded` |
| Inventory.Store.InventoryFields | AlbertoX3/scales/social/inventory/__init__.py:60-85 | the user's listing |
| Activity.FromTimestamp | AlbertoX3/scales/information/activity/models.py:22 | a wall-clock time exists exactly from the second day of year 1 to the end of year 9999 (the first day raises because the fold check also converts the time a day earlier), and is the instant plus the host's offset |
| Activity.Normalize | AlbertoX3/scales/information/activity/models.py:34-42 | seconds first, milliseconds when seconds are out of range, "now" when missing, no time zone taken as UTC |
| Activity.AddNormalize | AlbertoX3/scales/information/activity/models.py:20-28 | `add` reads numbers as seconds only |
| Activity.AddAgreesWithUpdate | AlbertoX3/scales/information/activity/models.py:20-42 | `add` and `update` agree wherever `add` accepts a time; beyond that `update` reads milliseconds |
| Activity.SecondsAreSeconds | AlbertoX3/scales/information/activity/models.py:34-36 | numbers of seconds up to 2^37 are read as seconds |
| Activity.MillisecondsAreMilliseconds | AlbertoX3/scales/information/activity/models.py:34-38 | millisecond numbers from 2^40 to 2^47 are read as milliseconds |
| Activity.Touched | AlbertoX3/scales/information/activity/models.py:44-47 | a missing row is created; an existing one moves only to a strictly later time |
| Activity.TouchedNeverDecreases | AlbertoX3/scales/information/activity/models.py:46-47 | no stored time goes back |
| Activity.EarlierChangesNothing | AlbertoX3/scales/information/activity/models.py:46-48 | an earlier or equal time changes nothing |
| Activity.TouchedCommutes | AlbertoX3/scales/information/activity/models.py:44-47 | the order in which a member's times arrive does not matter |
| Activity.ActivityTable.Add | AlbertoX3/scales/information/activity/models.py:19-28 | a new row at the time `add` reads |
| Activity.ActivityTable.Update | AlbertoX3/scales/information/activity/models.py:30-48 | the table becomes `Touched` at the normalised time, or is unchanged when the time is out of range |

## Left out

- Discord, the database engine, Redis, YAML loading, `str.format` rendering of translations, embeds and replies are not modelled. Stores are maps; a Redis entry is a cache map entry, and its TTL expiry is `Evict`.
- `UTCDatetime` (AlbertoX3/database.py imports it, but its definition is not part of this model): stored times are taken as instants in UTC, and naive times as UTC.
- `LockDeco` on the settings methods, `asyncio.gather` order and all concurrency are not modelled; operations run one at a time.
- `RE_LINK` (the link pattern) is not modelled: the links found in a message are an input of `AutoMod.ScamLinkScore`. `AutoMod.Excluded` is exactly the negated class of `RE_WORD` on every code point; its contract spells out the ASCII consequences.
- `str.lower()` and `str.isnumeric()` are modelled on ASCII only (`Text.Lower`, `Text.IsNumeric`).
- Text.ParseInt: Python's `int()` also accepts a leading `+`, surrounding white space and `_` between digits; the model reads only an optional `-` followed by ASCII digits.
- Activity.Normalize: float timestamps, fractional seconds, leap seconds and daylight-saving changes of the host's offset are not modelled; `localOffset` is one fixed offset, and `OverflowError` for huge numbers is the same error as `ValueError`.
- Activity.ActivityTable.Add: adding a member that already has a row (an integrity error in the database) is excluded by its precondition.
- `DailyStatsModel.incr_events` is not in the source shown; the gate models it as a counter, `dailyEvents`, that grows by one per event.
- Events.Gate.Dispatch: in the blocked case only bounds are stated (the event's moderation listener always runs; the contributor event may or may not), because which IDs were visited before the blocked one depends on the iteration order of a Python set.
- Events.Gate.Visit: `int()` conversion of the payload IDs is not modelled; payload IDs are integers already.
- Settings.DType: float settings are not modelled. `SettingsModel._create` accepts a `float` and `get` returns `dtype(out)` for any type, but `float` text conversion is not modelled; the types are bool, int and str.
- Translations.GetAttr: `TranslationDict` is a `dict`, so names of dict attributes (`items`, `get`, `keys`, `values`, `update`, `copy` and the like) never reach `__getattr__` and yield dict methods in the source; the model looks every name up as a translation.
- Translations.PluralCount: a count is an integer or nothing. In the source `cnt == 1` also holds for `True` and `1.0`, and `cnt == 0` for `False` and `0.0`; the model sends every non-integer count to "many".
- Contributor.PyValue: floats, dicts and sets are not modelled, so the markers "nan", "{}" and "set()" match only as text; an iterable other than a string, tuple or list is not modelled either.
- Lookup: the bot's own `get_member`/`get_user` (network and cache lookups) are maps from ID to object in `Lookup.Context`, and a negative integer resolves to nothing.
- Translations.Merge: `merge` updates `base` in place and returns it, and nested dictionaries of `src` become shared with `base`; the model works on values, so this aliasing is not captured.
- `Translations.__getattr__` (a plain dictionary lookup of the namespace) and `load_translations` (file discovery) are not modelled beyond `Translations.Registry.Register`.
- Inventory.CheckItem: a non-integer argument (`ValueError`) and a missing item row (`AttributeError` on `None`) raise in the source instead of replying; the model returns them as errors `NotANumber` and `NoRow`. The translation check `item in t.items` is the set `described`.
- Inventory.Store: the inventory table has no uniqueness constraint on (user, item); the model keeps one row per pair, which is what `InventoryModel.get` maintains.
- Inventory.Store.InventoryFields: the translated item names and field texts are not modelled; a field is the item ID and quantity.
- The `colors` tables, the profile and quiz scales, and the Discord event re-dispatchers of the automod scale are not modelled: they hold no logic beyond the Discord API.

## Findings

| source | as written | input that shows it | evidently intended | confidence | as-written member | corrected member |
|---|---|---|---|---|---|---|
| AlbertoX3/settings.py:74-76 | `Settings.set` calls `SettingsModel.get` with the new value as the default, so an existing setting is never changed | a setting created at its default 1, then set to 2, still reads 1 | `Settings.set` writes the value through `SettingsModel.set` | high (not executed) | Settings.SettingsStore.SetAsWritten, Settings.SetDiscrepancy | Settings.SettingsStore.EnumSet |
| AlbertoX3/scales/moderation/automod/__init__.py:95-107 | the bad-word score tests `entry.link`, a column `BadWordsModel` does not have, so every row raises `AttributeError` | a table with the row ("scam", 5) and the message "scam" | test `entry.word` against the words found | high (not executed) | AutoMod.BadWordScoreAsWritten, AutoMod.BadWordDiscrepancy | AutoMod.BadWordScore, AutoMod.BadWordEntries |
| AlbertoX3/scales/moderation/automod/__init__.py:80-92 | the scam-link score sums `entry.weight`, a column `ScamLinksModel` does not have, so a found link raises `AttributeError` | the listed link "evil.example" and a message linking "www.evil.example" | a weight per scam link, summed for the links found | medium (not executed) | AutoMod.ScamLinkScoreAsWritten, AutoMod.ScamLinkDiscrepancy | AutoMod.ScamLinkScore |
