# mal-notify-bot, modelled in Dafny

mal-notify-bot watches the MyAnimeList catalog for newly approved anime and
announces each one in a Discord feed channel. Each announcement is an embed:
title, a link to the anime page, and fields for Status, Air Date, MAL ID,
Synopsis and, once a trusted user adds one, Source. Safe-for-work entries go
to `#feed` and the rest to `#nsfw-feed`. The bot must never announce an id
twice. So it keeps the "old" file, the set of ids it has already announced,
and adds an id to it only once a search of the channel finds the message it
just sent.

This project models the logic of that pipeline and proves what the code
promises about it.

Modules, one per file:

| file | module | models |
|---|---|---|
| `wrappers.dfy` | `Wrappers` | `Option` and `Result` |
| `text.dfy` | `Text` | Python string operations the code relies on: `strip`, `splitlines`, `split`, `"\n".join`, `str`/`int` on ids, string order, `sorted` of a set |
| `mal_utils.dfy` | `MalUtils` | `extract_mal_id_from_url`, `remove_discord_link_supression`, `truncate` and the `uuid` call counter. The copies in `utils/__init__.py` are the same code and share these members. |
| `anime_data.dfy` | `AnimeData` | the pure part of `get_data` in `mal_notify_bot/utils/embeds.py`: image choice, `unslugify`, synopsis normalisation, the sfw test |
| `embed.dfy` | `EmbedModel` | fields and embeds; `discord.Embed` as a builder class; `add_to_embed` and `embed_value_helper`; chains of `add_to_embed` calls |
| `notify_embeds.dfy` | `NotifyEmbeds` | the builders of `mal_notify_bot/utils/embeds.py` (with a MAL ID field) |
| `legacy_embeds.dfy` | `LegacyEmbeds` | the builders of `embeds.py` and `utils/embeds.py` (no MAL ID field); `get_data` of `utils/embeds.py` |
| `update_embeds.dfy` | `UpdateEmbeds` | the field-copy loops of `update_embeds.py` |
| `seen_set.dfy` | `SeenSet` | `OldDatabase.read`/`dump`, the "old" file |
| `feed.dfy` | `Feed` | a channel as its message history, newest first; `search_feed_for_mal_id`; `_export_channel` and `run_export` |
| `delivery.dfy` | `Delivery` | `create_new_embeds` (diff and guard) and `print_new_embeds` (post, confirm, commit) |
| `legacy_cycle.dfy` | `LegacyCycle` | the cycle of `loop` in `mal.py` |
| `bot_entries.dfy` | `BotEntries` | `add_new_entries` of `bot.py` |
| `bot_logs.dfy` | `BotLogs` | `print_logs` of `bot.py` |
| `bot_source.dfy` | `BotSource` | the `source` command of `bot.py` |
| `crawler.dfy` | `Crawler` | `scrape_mal.py`: `just_added_page`, the rate-limited `crawl` class, `entry`, `make_jikan_animelist_request`, `download_anime_list` |

What is imperative in the code is imperative in the model:
- `discord.Embed`, the channels, the clock, the "old"/"new" files and the
  `uuid` counter are classes whose methods change their fields.
- Every loop of the code is a loop in the model, a `for` loop over a
  range or a `while` loop, with the invariants its proof needs.
- Each such method is proved equal to a specification function on its
  inputs and old state, and the properties the code promises are lemmas
  about those functions.

The outside world comes in as parameters:
- MyAnimeList's details for an id are a function `fetch`.
- Whether a sent message becomes visible to the next search is an oracle
  `lands`.
- What `requests.get` does for a link, or for the `k`th attempt, is an
  oracle too, and so is what Jikan answers for a page and try.
- Time in `scrape_mal.py` is a real number of seconds, so `wait * 0.5` is
  exact. A request takes no time.

## Behaviour worth knowing

- `print_new_embeds` adds each confirmed id to the in-memory set and
  writes the set once, at the end of the cycle (`mal_notify_bot/main.py:340`,
  `:351`). A message the confirming search does not find ends the process
  with `sys.exit(1)` (`:350`), so a cycle that stops saves nothing
  (`Delivery.PrintCycleFacts`).
- The confirming search runs once per embed, after one `sleep(2)`
  (`mal_notify_bot/main.py:331-335`).
- `crawl.get` waits until strictly more than `wait` seconds have passed
  since the last request (`scrape_mal.py:44`).
- `crawl.get` retries only a `RequestException`; a non-200 answer raises
  out of `get` at once (`scrape_mal.py:61`).
- `scrape_mal.py:10-23` is a comment describing a tiered scheduler, an
  adaptive page extension and a queue. No code implements them, so none is
  modelled; new ids come from the cached JSON catalog (`mal.py:50-54`).
- `mal.py` overwrites "old" with the current catalog, so an id that leaves
  the catalog is forgotten (`LegacyCycle.CycleAnnounces`).
- `mal.py` writes "new" whether or not the bot has consumed the batch
  already there (`mal.py:87-89`).
- `mal.py:86` passes two arguments to the three-parameter `create_embed`
  of `embeds.py:94`, so as written every cycle that meets a new id raises
  `TypeError` and writes neither file (`LegacyCycle.CycleTypeError`). The
  other cycle members model the call with its crawler supplied.
- The synopsis rule discards the result of `replace("\r", "")`
  (`mal_notify_bot/utils/embeds.py:73`, `utils/embeds.py:28`).
  `AnimeData.GetData` and `LegacyEmbeds.GetDataJikanAsWritten` keep
  carriage returns, as the code does; `AnimeData.GetDataCorrected` and
  `LegacyEmbeds.GetDataJikan` remove them.
- The missing-file branch of `create_new_embeds`
  (`mal_notify_bot/main.py:275-278`) is hard to reach in the running bot.
  A missing "old" file already fails the `assert os.path.exists` at import
  (`:45`), and `print_new_embeds`, the only caller, reads the file (`:304`)
  before it calls `create_new_embeds` (`:307`). The branch runs only when
  the file disappears between those two lines, or when another caller
  calls `create_new_embeds`.
- The `source` command of `bot.py` searches `logs_from(feed_channel,
  limit=999999, reverse=True)` (`bot.py:169`). discord.py 0.16 fetches
  such a history newest first, 100 messages per request, and reverses each
  batch on its own. So with two messages for one id, the command edits the
  oldest match in the newest block of 100 that has one, not the oldest
  match in the feed (`BotSource.EditFoundTarget`).

## Model

| member | source | states |
|---|---|---|
| MalUtils.DigitRun | mal_notify_bot/utils/__init__.py:32 | `\d+` taken greedily: the longest prefix of digits, followed by a non-digit or the end |
| MalUtils.FirstMatchFrom | mal_notify_bot/utils/__init__.py:32 | the leftmost position at or after `from` where the prefix and a digit occur; `None` exactly when there is none |
| MalUtils.ExtractMalId | mal_notify_bot/utils/__init__.py:27-36 | a result other than `None` is a non-empty string of digits |
| MalUtils.ExtractMalIdFacts | mal_notify_bot/utils/__init__.py:32-36 | `None` exactly when the pattern occurs nowhere; otherwise the digit run after the leftmost match |
| MalUtils.ExtractDoctest | mal_notify_bot/utils/__init__.py:28-31 | the doctest: `…/anime/5` gives `'5'` |
| MalUtils.ExtractAnimeUrl | mal_notify_bot/utils/__init__.py:27-36 | the id read out of `https://myanimelist.net/anime/{id}` is `str(id)` |
| MalUtils.UnwrapSuppressed | mal_notify_bot/utils/__init__.py:39-43 | whitespace around `<x>` is stripped and one `<…>` layer comes off, giving `x` |
| MalUtils.OnlyOneLayer | mal_notify_bot/utils/__init__.py:41-42 | only one layer comes off: `<<a>>` gives `<a>` |
| MalUtils.HalfWrappedKept | mal_notify_bot/utils/__init__.py:41 | a link with `<` but no closing `>` is left as it is |
| MalUtils.RemoveLinkSuppression | mal_notify_bot/utils/__init__.py:39-43 | the stripped link is the result wrapped in `<…>` when it starts with `<` and ends with `>`, and is the result itself otherwise; never longer than the input |
| MalUtils.Truncate | mal_notify_bot/utils/__init__.py:53-58 | a repr shorter than the limit is returned unchanged; otherwise exactly its first `limit` characters followed by `... (truncated)`, `limit + 15` characters in all (Python slicing for a negative limit) |
| MalUtils.TruncateLength | mal_notify_bot/utils/__init__.py:55-58 | the output is the input, shorter than the limit, or exactly `limit + 15` long, starting with the first `limit` characters and ending with `... (truncated)` |
| MalUtils.CallCounter.constructor | mal_notify_bot/utils/__init__.py:15 | the counter starts at 0 |
| MalUtils.CallCounter.Get | mal_notify_bot/utils/__init__.py:17-19 | returns the counter and changes nothing |
| MalUtils.CallCounter.GetAndIncrement | mal_notify_bot/utils/__init__.py:21-24 | adds one to the counter and returns the new value |
| MalUtils.LogCallIds | mal_notify_bot/utils/__init__.py:66 | `n` decorated calls take the ids `old + 1 … old + n`, strictly increasing |
| MalUtils.AnimeUrl | mal_notify_bot/utils/embeds.py:129 | `"https://myanimelist.net/anime/{}".format(id)` |
| Text.LStrip | mal_notify_bot/utils/__init__.py:40 | `lstrip` leaves a suffix that does not start with whitespace |
| Text.LStripDrops | mal_notify_bot/utils/__init__.py:40 | what `lstrip` drops is whitespace |
| Text.RStrip | mal_notify_bot/utils/__init__.py:40 | `rstrip` leaves a prefix that does not end with whitespace |
| Text.RStripDrops | mal_notify_bot/utils/__init__.py:40 | what `rstrip` drops is whitespace |
| Text.StripSlice | mal_notify_bot/utils/__init__.py:40 | `strip` keeps a slice of its input with no whitespace at either end |
| Text.StripNoOp | mal_notify_bot/utils/__init__.py:40 | a string with non-space ends is its own strip |
| Text.StripIdempotent | mal_notify_bot/utils/__init__.py:40 | stripping twice strips nothing more |
| Text.StripEmpty | mal_notify_bot/utils/embeds.py:79-80 | the strip is empty exactly when the text is all whitespace |
| Text.FirstBreak | mal_notify_bot/main.py:96 | the first line break at or after a position, and no break before it |
| Text.SplitLinesHaveNoBreaks | mal_notify_bot/main.py:96 | no line of `splitlines` holds a line break |
| Text.SplitLinesOfJoin | mal_notify_bot/main.py:96-102 | `"\n".join(xs).splitlines() == xs` for non-empty break-free lines |
| Text.FirstSpace | bot.py:148 | the first whitespace at or after a position, and none before it |
| Text.WordsAreWords | bot.py:148 | every token of `split()` is non-empty and free of whitespace |
| Text.NatToString | mal_notify_bot/main.py:121 | `str(n)` is a non-empty digit string with no leading zero |
| Text.ValueOfNatToString | mal_notify_bot/main.py:100 | `int(str(n)) == n` |
| Text.NatToStringOfValue | mal_notify_bot/main.py:157 | `str(int(s)) == s` for a canonical numeral |
| Text.PositiveValue | mal_notify_bot/main.py:157 | a canonical numeral other than `0` denotes a positive number |
| Text.CanonicalInjective | mal_notify_bot/main.py:157 | canonical numerals with the same `int` are the same string |
| Text.LexTotal | mal_notify_bot/main.py:281 | string `<` is total |
| Text.LexAsymmetric | mal_notify_bot/main.py:281 | string `<` is asymmetric |
| Text.LexTransitive | mal_notify_bot/main.py:281 | string `<` is transitive |
| Text.PrecedesTotal | mal_notify_bot/main.py:100 | the `sorted` order (plain or `key=int`) is total |
| Text.PrecedesAsymmetric | mal_notify_bot/main.py:100 | the `sorted` order is asymmetric |
| Text.PrecedesTransitive | mal_notify_bot/main.py:100 | the `sorted` order is transitive |
| Text.HasLeast | mal_notify_bot/main.py:100 | a non-empty set has a least element |
| Text.SortedSet | mal_notify_bot/main.py:100 | `sorted(s)`: every element of the set exactly once, strictly ascending |
| Text.AscendingDistinct | mal_notify_bot/main.py:281 | a sorted listing of a set has no repeated element |
| Text.AscendingUnique | mal_notify_bot/main.py:100 | two ascending listings of the same elements are equal |
| Text.Strip | mal_notify_bot/utils/__init__.py:40 | `str.strip()`: the leading, then the trailing whitespace removed |
| Text.Join | mal_notify_bot/main.py:102 | `sep.join(xs)`: the strings in order, with `sep` between neighbours |
| Text.SplitLines | mal_notify_bot/main.py:96 | `str.splitlines()`: every line break ends a line, `\r\n` counts as one break, and a final empty segment is dropped |
| Text.Words | bot.py:148 | `str.split()`: the maximal runs of non-whitespace, in order |
| Text.DigitsValue | mal_notify_bot/main.py:100 | `int(s)` of an ASCII digit string, read in decimal |
| Text.LexLess | mal_notify_bot/main.py:281 | Python's `<` on `str`: the first differing code point decides, and a proper prefix comes first |
| SeenSet.DumpLines | mal_notify_bot/main.py:99-102 | the dumped file reads back as the ids in ascending integer order |
| SeenSet.NumeralIsLine | mal_notify_bot/main.py:96 | a numeral is a non-empty break-free line |
| SeenSet.DumpReadRoundTrip | mal_notify_bot/main.py:93-103 | reading back what `dump` wrote gives the same set of ids |
| SeenSet.OldDatabase.constructor | mal_notify_bot/main.py:89-90 | the database holds the given file state |
| SeenSet.OldDatabase.Read | mal_notify_bot/main.py:93-96 | the set of the file's lines; an error exactly when the file is missing |
| SeenSet.OldDatabase.Dump | mal_notify_bot/main.py:99-103 | the file becomes the ids in integer order; a non-numeral id makes `int` raise and leaves the file as it was |
| SeenSet.LinesOf | mal_notify_bot/main.py:96 | `set(contents.splitlines())` |
| SeenSet.DumpText | mal_notify_bot/main.py:99-102 | the ids sorted by integer value and joined by line breaks |
| Feed.Window | mal_notify_bot/main.py:152 | `history(limit=n)`: the newest `n` messages, newest first |
| Feed.EmbedId | mal_notify_bot/main.py:155-156 | the id of an embed's URL is a non-empty digit string |
| Feed.MessageId | mal_notify_bot/main.py:154-156 | the id a message's first embed carries, `None` without an embed or URL |
| Feed.FirstFor | mal_notify_bot/main.py:152-159 | the position of the newest message for the id, with no such message before it |
| Feed.Found | mal_notify_bot/main.py:152-163 | `None` exactly when no message is for the id; otherwise a message of the window that is for it |
| Feed.FoundNewest | mal_notify_bot/main.py:157-159 | the newest message for the id is returned whatever follows |
| Feed.FoundSkips | mal_notify_bot/main.py:160-162 | messages not for the id, those that raise included, are skipped |
| Feed.FirstForSkips | mal_notify_bot/main.py:160-162 | the position found after skipped messages is offset by them |
| Feed.Channel.constructor | mal_notify_bot/main.py:152 | a channel with the given history |
| Feed.Channel.Send | mal_notify_bot/main.py:330 | `send(embed=e)` puts a message with that embed in front of the history |
| Feed.Channel.Edit | bot.py:194 | editing replaces the message at that position by one showing the new embed |
| Feed.SearchFeedForMalId | mal_notify_bot/main.py:144-163 | the loop returns what `Found` gives on the window |
| Feed.Entries | mal_notify_bot/main.py:168-181 | one export entry per message, in visiting order |
| Feed.LastEntry | mal_notify_bot/main.py:181 | the last (oldest) entry for an id, and none after it |
| Feed.CollectLast | mal_notify_bot/main.py:181 | an id is in the dictionary exactly when some entry has it, with the value of its last entry |
| Feed.ExportMapLast | mal_notify_bot/main.py:166-182 | the export holds an id exactly when a message with an embed, URL, id and Source has it, and the oldest such message's Source wins |
| Feed.ReadEntry | mal_notify_bot/main.py:169-181 | the loop body: the id and Source of a message, skipping messages without embed, URL, id or Source |
| Feed.ExportChannel | mal_notify_bot/main.py:166-182 | the loop builds the export map of the newest 99999 messages |
| Feed.RunExport | mal_notify_bot/main.py:186-194 | the merged export: an nsfw-feed entry overrides a feed entry with the same id |
| Feed.ExportEntry | mal_notify_bot/main.py:169-181 | a message's id and Source when it has an embed, a URL, an id in that URL and a Source field; nothing otherwise |
| Feed.Collect | mal_notify_bot/main.py:181 | the dictionary assignments `export[id] = source` made in order |
| Feed.ExportMap | mal_notify_bot/main.py:166-182 | `_export_channel`: the entries of the visited messages, assigned in visiting order |
| EmbedModel.Names | mal_notify_bot/utils/embeds.py:102 | `[f.name for f in fields]`, pointwise |
| EmbedModel.FirstIndex | mal_notify_bot/utils/embeds.py:87-89 | the position of the first field with that name, no earlier field having it |
| EmbedModel.FirstValue | mal_notify_bot/utils/embeds.py:87-89 | `None` exactly when no field has the name |
| EmbedModel.FirstValueAppend | mal_notify_bot/utils/embeds.py:87-89 | the first value in `a + b` is the one in `a` when `a` has the name, else the one in `b` |
| EmbedModel.Merged | mal_notify_bot/utils/embeds.py:100-117 | the value `add_to_embed` writes: the given one (shown, `None` included) with no previous embed; the new one over the previous one's first value |
| EmbedModel.EmbedValueHelper | mal_notify_bot/utils/embeds.py:85-90 | the first matching field's value; `RuntimeError("Could not find … on embed object")` exactly when none matches |
| EmbedModel.EmbedBuilder.constructor | mal_notify_bot/utils/embeds.py:128-132 | `discord.Embed(title, url)`: no thumbnail, no fields |
| EmbedModel.EmbedBuilder.SetThumbnail | mal_notify_bot/utils/embeds.py:134 | sets the thumbnail, nothing else changes |
| EmbedModel.EmbedBuilder.AddField | mal_notify_bot/utils/embeds.py:105 | appends one field, nothing else changes |
| EmbedModel.AddToEmbed | mal_notify_bot/utils/embeds.py:93-118 | appends exactly what the three-case rule adds: one field with no previous embed (even for `None`); new or carried value when the previous embed has the name; nothing when it lacks it and the value is `None` |
| EmbedModel.RebuildSnoc | mal_notify_bot/utils/embeds.py:135-138 | a chain of `add_to_embed` calls extends one step at a time |
| EmbedModel.AddStep | mal_notify_bot/utils/embeds.py:158-162 | one `add_to_embed` call of a chain keeps the builder equal to the rebuild of the steps so far |
| EmbedModel.AddChain | mal_notify_bot/utils/embeds.py:158-162 | a chain of `add_to_embed` calls builds the rebuilt field list; title, URL and thumbnail unchanged |
| EmbedModel.LookupRebuild | mal_notify_bot/utils/embeds.py:93-118 | in a chain over distinct names, each name's value is what its step merges, or absent when no step names it (a carried value needs no later step) |
| EmbedModel.LookupAt | mal_notify_bot/utils/embeds.py:93-118 | the value under step `k`'s name is what step `k` merges |
| EmbedModel.LookupAbsent | mal_notify_bot/utils/embeds.py:111-114 | a name no step uses is absent from the result |
| EmbedModel.NamesRebuild | mal_notify_bot/utils/embeds.py:100-117 | the names of the result are the step names that were written, in step order |
| EmbedModel.RebuildNamesFromSteps | mal_notify_bot/utils/embeds.py:100-117 | every field of the result has a step's name |
| EmbedModel.RebuildCarryOnly | mal_notify_bot/utils/embeds.py:106-110 | a chain that only carries values depends only on the previous embed's first values for those names |
| EmbedModel.GetSource | mal_notify_bot/utils/embeds.py:201-205 | the first Source value, `None` without one |
| AnimeData.MalImage | mal_notify_bot/utils/embeds.py:29-36 | a non-empty medium picture wins, else a non-empty large one, else `None` |
| AnimeData.UnslugifyPointwise | mal_notify_bot/utils/embeds.py:39-40 | `" ".join(w.capitalize() for w in slug.split("_"))` is the slug with `_` made a space, each word's first letter upper-case and the rest lower-case, for ASCII letters |
| AnimeData.SlugCharsSplit | mal_notify_bot/utils/embeds.py:40 | splitting at an underscore restarts capitalisation |
| AnimeData.CollapseNoBlankLine | mal_notify_bot/utils/embeds.py:74 | after `re.sub(r"\n\s*\n", "\n", …)` no line break is followed by whitespace up to another line break |
| AnimeData.CollapseChars | mal_notify_bot/utils/embeds.py:74 | the substitution adds no character other than a line break |
| AnimeData.RemoveCarriageReturns | mal_notify_bot/utils/embeds.py:73 | `replace("\r", "")` leaves no carriage return and keeps every other character |
| AnimeData.LongCutFacts | mal_notify_bot/utils/embeds.py:75-76 | a synopsis over 400 characters becomes at most 403, not blank, with no blank line |
| AnimeData.FinishSynopsisFacts | mal_notify_bot/utils/embeds.py:75-78 | the cut and blank test give at most 403 characters, never blank, with no blank line |
| AnimeData.BlankStaysBlank | mal_notify_bot/utils/embeds.py:77-78 | a blank synopsis becomes `No Synopsis` |
| AnimeData.NormaliseSynopsisFacts | mal_notify_bot/utils/embeds.py:72-78 | `None` stays `None`; otherwise the result is at most 403 characters, not blank, has no blank line and no carriage return; a blank one becomes `No Synopsis` |
| AnimeData.NormaliseAsWrittenFacts | mal_notify_bot/utils/embeds.py:72-78 | as written: `None` stays `None`; otherwise at most 403 characters, not blank, no blank line (a carriage return may remain); a blank one becomes `No Synopsis` |
| AnimeData.NormaliseAgrees | mal_notify_bot/utils/embeds.py:73 | the rule as written and the corrected rule agree on every synopsis without a carriage return |
| AnimeData.NormaliseNoSynopsis | mal_notify_bot/utils/embeds.py:71 | the default `No Synopsis` passes through both rules unchanged |
| AnimeData.CarriageReturnSurvives | mal_notify_bot/utils/embeds.py:73 | with the replacement's result discarded, `"a\r\nb"` keeps its carriage return |
| AnimeData.SynopsisOf | mal_notify_bot/utils/embeds.py:71-78 | as written: `No Synopsis` when missing, `None` exactly when null, otherwise at most 403 characters, not blank, no blank line |
| AnimeData.SynopsisOfCorrected | mal_notify_bot/utils/embeds.py:71-78 | corrected: the same bounds and no carriage return; equal to the rule as written unless the synopsis holds a carriage return |
| AnimeData.GetData | mal_notify_bot/utils/embeds.py:61-82 | as written: the title; no image when ignored or the placeholder icon; the synopsis (`No Synopsis` when missing, `None` exactly when null, otherwise at most 403 characters, not blank, no blank line); sfw exactly when no genre is named `Hentai`; a status always |
| AnimeData.GetDataCorrected | mal_notify_bot/utils/embeds.py:61-82 | with the corrected synopsis rule: everything but the synopsis as in `GetData`; no carriage return in the synopsis; equal to `GetData` unless the synopsis holds one |
| AnimeData.Capitalize | mal_notify_bot/utils/embeds.py:40 | `w.capitalize()` for ASCII letters: the first character upper case, the rest lower case |
| AnimeData.Unslugify | mal_notify_bot/utils/embeds.py:39-40 | as written: the `_`-separated words of the slug, each capitalised, joined by single spaces |
| AnimeData.CollapseBlankLines | mal_notify_bot/utils/embeds.py:74 | `re.sub(r"\n\s*\n", "\n", s)`: scanning left to right, a line break and the whitespace after it up to the last line break of that run become one line break |
| AnimeData.CutSynopsis | mal_notify_bot/utils/embeds.py:75-76 | over 400 characters, the first 400 stripped and then `...`; otherwise the text unchanged |
| AnimeData.FinishSynopsis | mal_notify_bot/utils/embeds.py:75-78 | the cut, with `No Synopsis` in place of a blank result |
| AnimeData.NormaliseSynopsisAsWritten | mal_notify_bot/utils/embeds.py:72-78 | as written: strip, collapse blank lines, strip, cut and blank test; the discarded `replace` leaves carriage returns in; `None` stays `None` |
| AnimeData.NormaliseSynopsis | mal_notify_bot/utils/embeds.py:72-78 | corrected: carriage returns removed first, then the same steps |
| AnimeData.IsSfw | mal_notify_bot/utils/embeds.py:81 | `"Hentai" not in` the genre names |
| NotifyEmbeds.CreateEmbed | mal_notify_bot/utils/embeds.py:121-139 | builds the created embed and passes `sfw` through |
| NotifyEmbeds.CreatedEmbedFacts | mal_notify_bot/utils/embeds.py:128-139 | the URL is the anime page and gives the id back; the fields are exactly Status, Air Date, MAL ID, Synopsis, in order, with no Source |
| NotifyEmbeds.CreatedEmbedValues | mal_notify_bot/utils/embeds.py:135-138 | the fields hold the status, air date, `str(mal_id)` and synopsis |
| NotifyEmbeds.RecutSynopsis | mal_notify_bot/utils/embeds.py:149-150 | a synopsis over 400 characters becomes its first 400 plus `...`; shorter ones are kept |
| NotifyEmbeds.RefreshEmbed | mal_notify_bot/utils/embeds.py:142-163 | builds the refreshed embed |
| NotifyEmbeds.RefreshedEmbedFacts | mal_notify_bot/utils/embeds.py:151-162 | the URL of the anime page; the old Source carried over; fresh Status and Air Date over the old ones; the id; no thumbnail when the image is removed |
| NotifyEmbeds.AddSource | mal_notify_bot/utils/embeds.py:166-183 | builds the sourced embed; `is_new_source` exactly when the input had no Source |
| NotifyEmbeds.SourcedEmbedFacts | mal_notify_bot/utils/embeds.py:170-183 | title, URL and thumbnail kept; `get_source` gives the joined links; the four info fields keep their values |
| NotifyEmbeds.RemoveSource | mal_notify_bot/utils/embeds.py:186-198 | builds the unsourced embed |
| NotifyEmbeds.UnsourcedEmbedFacts | mal_notify_bot/utils/embeds.py:188-198 | title, URL and thumbnail kept; no Source; only info fields, with their old values |
| NotifyEmbeds.CarriedInfo | mal_notify_bot/utils/embeds.py:176-179 | carrying Status, Air Date, MAL ID and Synopsis over keeps their values |
| NotifyEmbeds.RemoveAfterAdd | mal_notify_bot/utils/embeds.py:166-198 | removing a source just added gives the embed with its source removed |
| NotifyEmbeds.CreatedEmbed | mal_notify_bot/utils/embeds.py:128-139 | the chain `create_embed` runs: title, anime URL, thumbnail when there is an image, then Status, Air Date, MAL ID and Synopsis |
| NotifyEmbeds.RefreshedEmbed | mal_notify_bot/utils/embeds.py:151-162 | the chain `refresh_embed` runs over the old embed, with the synopsis cut again and the thumbnail dropped when the image is removed |
| NotifyEmbeds.SourcedEmbed | mal_notify_bot/utils/embeds.py:170-183 | the chain `add_source` runs: header and thumbnail kept, info fields carried, Source the joined links |
| NotifyEmbeds.UnsourcedEmbed | mal_notify_bot/utils/embeds.py:188-198 | the chain `remove_source` runs: header and thumbnail kept, only the info fields carried |
| LegacyEmbeds.IgnoreImageRaises | utils/embeds.py:22-24 | with `ignore_image` set the placeholder test raises on `None` |
| LegacyEmbeds.GetDataJikan | utils/embeds.py:17-37 | corrected `get_data`: no image when ignored or the placeholder icon; sfw exactly when no genre has `mal_id` 12; the status and air-date string; `None` synopsis exactly when null, otherwise at most 403 characters with no carriage return; where the code as written does not raise it gives the same answer but for the synopsis rule, and the same answer outright when the synopsis has no carriage return |
| LegacyEmbeds.EmbedValueOrNone | utils/embeds.py:40-44 | the first matching value, `None` (not an error) without one |
| LegacyEmbeds.CreateEmbed | utils/embeds.py:70-80 | builds the created embed and passes `sfw` through |
| LegacyEmbeds.CreatedEmbedFacts | embeds.py:94-102 | the URL gives the id back; the fields are exactly Status, Air Date, Synopsis, in order, with their values |
| LegacyEmbeds.RefreshEmbed | embeds.py:105-116 | builds the refreshed embed |
| LegacyEmbeds.RefreshedEmbedFacts | utils/embeds.py:83-98 | the old Source carried over; a new synopsis over 400 characters cut to 400 plus `...`; the old synopsis kept when there is no new one |
| LegacyEmbeds.AddSource | embeds.py:118-129 | builds the sourced embed; `is_new_source` exactly when the input had no Source |
| LegacyEmbeds.SourcedEmbedFacts | utils/embeds.py:101-112 | title, URL and thumbnail kept; Source is the joined links; Status, Air Date and Synopsis keep their values |
| LegacyEmbeds.RemoveSource | embeds.py:131-138 | builds the unsourced embed |
| LegacyEmbeds.UnsourcedEmbedFacts | utils/embeds.py:115-124 | only Status, Air Date and Synopsis remain, with their values; title, URL and thumbnail kept |
| LegacyEmbeds.CarriedInfo | embeds.py:125-127 | carrying Status, Air Date and Synopsis over keeps their values |
| LegacyEmbeds.GetDataJikanAsWritten | utils/embeds.py:17-37 | as written: an ignored or missing image raises `AttributeError` at `image.startswith`; otherwise the details, with the synopsis rule as written |
| LegacyEmbeds.JikanDetails | utils/embeds.py:21-37 | the title, the image unless it is the placeholder icon, the given synopsis, the status, the air date, and sfw exactly when no genre has id 12 |
| LegacyEmbeds.CreatedEmbed | embeds.py:94-102 | the chain `create_embed` runs: title, anime URL, thumbnail when there is an image, then Status, Air Date and Synopsis |
| LegacyEmbeds.RecutSynopsis | utils/embeds.py:86-87 | over 400 characters, the first 400 plus `...` |
| LegacyEmbeds.RefreshedEmbed | embeds.py:105-116 | the chain `refresh_embed` runs over the old embed: fresh info values where there are some, the old ones otherwise, and the old Source carried |
| LegacyEmbeds.SourcedEmbed | embeds.py:118-129 | the chain `add_source` runs: header and thumbnail kept, info fields carried, Source the joined links |
| LegacyEmbeds.UnsourcedEmbed | embeds.py:131-138 | the chain `remove_source` runs: header and thumbnail kept, only the info fields carried |
| UpdateEmbeds.Filtered | update_embeds.py:69-75 | the copy keeps only fields with the chosen names, with the loop's inline flag |
| UpdateEmbeds.FilteredSnoc | update_embeds.py:33-37 | one loop iteration adds what that field contributes |
| UpdateEmbeds.FilteredLookup | update_embeds.py:69-75 | a chosen name's first value is kept; other names are gone |
| UpdateEmbeds.FilteredIdempotent | update_embeds.py:69-75 | copying a copy changes nothing |
| UpdateEmbeds.RecutSynopsis | update_embeds.py:27-28 | over 400 characters: exactly the first 400 plus `...`; otherwise unchanged |
| UpdateEmbeds.CopyStatusAndAirDate | update_embeds.py:33-37 | the first loop appends the Status and Air Date fields in their order |
| UpdateEmbeds.CopySources | update_embeds.py:40-42 | the last loop appends every Source field in its order |
| UpdateEmbeds.RefreshEmbed | update_embeds.py:25-43 | the three-part rebuild: old Status and Air Date, the new synopsis if any, old Sources |
| UpdateEmbeds.RefreshedEmbedFacts | update_embeds.py:25-43 | title and URL kept; Status, Air Date and Source keep their values; the synopsis is the new one cut, and gone when there is none |
| UpdateEmbeds.ResourcedAll | update_embeds.py:49-58 | every field copied is an info field or the new Source |
| UpdateEmbeds.ResourcedSnoc | update_embeds.py:49-58 | one iteration of the corrected loop adds that field's contribution |
| UpdateEmbeds.ResourcedLookup | update_embeds.py:49-58 | info values are kept; an existing Source becomes the joined links |
| UpdateEmbeds.AddSourceLoopAsWritten | update_embeds.py:45-63 | the loop as written returns after looking at the first field only, and `None` with no fields |
| UpdateEmbeds.AddSourceNoFields | update_embeds.py:49-63 | no fields: as written `None`; corrected, just the Source field |
| UpdateEmbeds.AddSourceDropsSynopsis | update_embeds.py:49-63 | on a Status-then-Synopsis embed the code as written loses the Synopsis, the corrected one keeps it |
| UpdateEmbeds.AddSourceSingleField | update_embeds.py:49-63 | with exactly one field the two versions agree |
| UpdateEmbeds.AddSource | update_embeds.py:45-63 | corrected: the sourced embed, `is_new_source` exactly when there was no Source |
| UpdateEmbeds.SourcedEmbedFacts | update_embeds.py:45-63 | title, URL and thumbnail kept; Source is the joined links; info values kept |
| UpdateEmbeds.RemoveSource | update_embeds.py:65-76 | the loop copies only the info fields |
| UpdateEmbeds.UnsourcedEmbedFacts | update_embeds.py:65-76 | no Source; only info fields, with their values; title, URL and thumbnail kept |
| UpdateEmbeds.FilteredResourced | update_embeds.py:49-76 | `remove_source` ignores the Source that `add_source` wrote |
| UpdateEmbeds.RemoveAfterAdd | update_embeds.py:45-76 | removing a source just added gives the embed with its source removed |
| UpdateEmbeds.RefreshedEmbed | update_embeds.py:25-43 | Status and Air Date copied, then the new synopsis cut, then every Source, under the old header |
| UpdateEmbeds.Resourced | update_embeds.py:50-58 | one iteration of the copy: an info field kept, a Source field replaced by the joined links, any other field dropped |
| UpdateEmbeds.AddSourceAsWritten | update_embeds.py:45-63 | as written: `None` for an embed with no fields; otherwise only the first field is copied before the `return`, then Source when there was none |
| UpdateEmbeds.SourcedEmbed | update_embeds.py:45-63 | corrected: every field run through the copy, then Source when there was none |
| UpdateEmbeds.UnsourcedEmbed | update_embeds.py:65-76 | header and thumbnail kept, only the info fields copied |
| Delivery.CatalogIds | mal_notify_bot/main.py:121 | the cached catalog ids as canonical numerals, in cache order |
| Delivery.CatalogCanonical | mal_notify_bot/main.py:121 | every catalog id is a canonical numeral |
| Delivery.NewIds | mal_notify_bot/main.py:281 | `sorted(set(ids) - set(old_ids))`: exactly the catalog ids not yet seen, strictly ascending as strings |
| Delivery.NewIdsDistinct | mal_notify_bot/main.py:281 | the new ids are duplicate-free, unseen and from the catalog |
| Delivery.NewCatalogIds | mal_notify_bot/main.py:281 | every new id is a canonical numeral |
| Delivery.Announcements | mal_notify_bot/main.py:294-299 | one `create_embed(int(new_id))` per new id, in order |
| Delivery.AnnouncementId | mal_notify_bot/main.py:297 | an announcement's URL gives back the id it was made for |
| Delivery.AnnouncementsIds | mal_notify_bot/main.py:294-299 | each announcement carries the id at its position |
| Delivery.MissingOldFile | mal_notify_bot/main.py:275-278 | as written a missing "old" file raises `FileNotFoundError`; corrected, the file is created with every catalog id and no embed comes out |
| Delivery.CreationFacts | mal_notify_bot/main.py:279-299 | with a file: the file is kept; one embed per new id when there are at most 10000, none otherwise; each for a catalog id not in the file |
| Delivery.CreationOrdered | mal_notify_bot/main.py:281-299 | the embeds come out in ascending string order of their ids |
| Delivery.CreateNewEmbeds | mal_notify_bot/main.py:266-299 | the (corrected) method gives the embeds and the file the specification gives, more than 10000 new ids giving `[]` |
| Delivery.AnnounceAll | mal_notify_bot/main.py:294-299 | the loop builds the announcements |
| Delivery.VisibleFound | mal_notify_bot/main.py:313-315 | an id is visible in the window exactly when the feed search finds a message for it |
| Delivery.DeliverFacts | mal_notify_bot/main.py:307-350 | an id joins the seen set only when a re-search then finds its message; a message is sent only for an id neither seen nor visible in the last 1000; the other channel is untouched |
| Delivery.DeliverNew | mal_notify_bot/main.py:324-350 | a new, invisible id is delivered exactly when its sent message shows up; otherwise the process exits |
| Delivery.SeenButScrolledAway | mal_notify_bot/main.py:324-350 | an id already seen but not in the last 1000 messages is not sent, and the re-search then ends the process |
| Delivery.RunNext | mal_notify_bot/main.py:307 | the loop handles the batch one embed at a time until the process exits |
| Delivery.RunStops | mal_notify_bot/main.py:350 | after an exit, the later embeds change nothing |
| Delivery.RunSeen | mal_notify_bot/main.py:340 | the seen set only grows, and only by ids of the batch |
| Delivery.RunWithin | mal_notify_bot/main.py:340 | when the batch's ids are within a set, the growth is within it |
| Delivery.PrintCycleFacts | mal_notify_bot/main.py:303-351 | a cycle that stops leaves the file as it was; a completed one saves a superset of the old ids whose additions are all catalog ids |
| Delivery.DeliverOne | mal_notify_bot/main.py:308-350 | one loop iteration changes the channels and the seen set as the specification says, and nothing on a stop |
| Delivery.DeliverBatch | mal_notify_bot/main.py:307-350 | the loop runs the batch as the specification says |
| Delivery.PrintNewEmbeds | mal_notify_bot/main.py:302-351 | the outcome, the "old" file and both channels are those of the specification |
| Delivery.Announcement | mal_notify_bot/main.py:296-297 | `create_embed(int(new_id))` and its sfw flag, from the details `fetch` gives for the id |
| Delivery.CreateNewEmbedsAsWritten | mal_notify_bot/main.py:266-299 | as written: a missing "old" file raises `FileNotFoundError`; otherwise the corrected result |
| Delivery.CreateNewEmbedsSpec | mal_notify_bot/main.py:266-299 | corrected: a missing file is created with every catalog id and nothing is new; otherwise the new ids are announced, unless there are more than 10000 |
| Delivery.Deliver | mal_notify_bot/main.py:308-350 | one iteration: an embed without an id stops; the message is sent only for an id neither seen nor visible in the newest 1000; the id is added when the re-search finds it, and the process exits otherwise |
| Delivery.Run | mal_notify_bot/main.py:307-350 | the iterations in batch order, stopping at the first exit |
| Delivery.PrintCycle | mal_notify_bot/main.py:302-351 | `print_new_embeds`: a missing file or one of at most 10000 ids fails before anything is sent; an exit leaves the file as it was; a completed cycle dumps the seen set |
| LegacyCycle.Files.constructor | mal.py:70-92 | the "old" and "new" files as given |
| LegacyCycle.SetOf | mal.py:78 | `set(ids)` |
| LegacyCycle.IdStrings | mal.py:72 | `map(str, ids)` |
| LegacyCycle.ParseOldFacts | mal.py:75 | `int` fails exactly when a line of the stripped file is not an integer; otherwise the set of the lines' values |
| LegacyCycle.ValuesOfIdStrings | mal.py:75 | parsing `str` of the ids gives their set |
| LegacyCycle.IdsTextRoundTrip | mal.py:72-75 | reading back the written "old" file gives the set of the ids written |
| LegacyCycle.NewIdsFacts | mal.py:78 | `list(set(ids) - set(old_ids))`: exactly the ids not in the old file, each once |
| LegacyCycle.NoNewIds | mal.py:78 | when every id is old, nothing is new |
| LegacyCycle.CycleTypeError | mal.py:84-86 | as written, a catalog id missing from "old" makes `create_embed` raise `TypeError` (the `logger` argument is missing, embeds.py:94); both files stay as they were, so the next cycle fails the same way |
| LegacyCycle.CycleNeverAnnounces | mal.py:81-92 | as written, "new" is never written, and "old" is written only when it did not exist |
| LegacyCycle.CycleAgrees | mal.py:56-92 | the cycle as written and the corrected one agree exactly when the corrected one announces nothing |
| LegacyCycle.Pickles | mal.py:83-86 | corrected call: one pickle per new id |
| LegacyCycle.PicklesAt | mal.py:86 | corrected call: each pickle is `create_embed` of its id, with its crawler |
| LegacyCycle.CycleInit | mal.py:70-72 | without "old", it is written with all ids and nothing is announced |
| LegacyCycle.CycleBadOld | mal.py:75 | an "old" file with a non-integer line raises `ValueError` before anything is written |
| LegacyCycle.CycleNewIds | mal.py:74-78 | corrected call: the announced ids are the ids missing from "old", each once |
| LegacyCycle.CycleQuiet | mal.py:81 | when nothing is new, neither file is written |
| LegacyCycle.CycleAnnounces | mal.py:81-92 | corrected call: when something is new, "new" holds one pickle per new id and "old" reads back as exactly the current ids, not a union |
| LegacyCycle.MakePickles | mal.py:83-86 | corrected call: the loop builds the pickles |
| LegacyCycle.Loop | mal.py:56-92 | corrected call: the result and both files are those of the corrected cycle specification |
| LegacyCycle.IdsText | mal.py:72 | `"\n".join(map(str, ids))` |
| LegacyCycle.ParseOld | mal.py:75 | `list(map(int, text.strip().splitlines()))`, as a set; a line that is not a numeral raises `ValueError` |
| LegacyCycle.NewIds | mal.py:78 | the catalog ids missing from "old", each once, in catalog order |
| LegacyCycle.CycleAsWritten | mal.py:70-92 | as written: no "old" file writes it with every id; a bad "old" raises `ValueError`; no new id writes nothing; a new id raises `TypeError` and writes nothing |
| LegacyCycle.CycleSpec | mal.py:70-92 | corrected call: the same, except that new ids are announced, "old" getting the catalog and "new" the pickles |
| BotEntries.UrlId | bot.py:80-81 | `re.search(...).group(1)` on the embed URL: the id when there is one, an error (`None.group`) otherwise |
| BotEntries.BatchIdsSnoc | bot.py:81 | the ids of a batch grow one embed at a time |
| BotEntries.RunAsWrittenFacts | bot.py:74-82 | as written every embed of a batch is posted, and the set gains exactly the batch's ids |
| BotEntries.RunCheckedFacts | bot.py:74-82 | with the intended id test the set gains the same ids, but only ids new to the set are posted |
| BotEntries.PostCheckedStep | bot.py:75-81 | one intended iteration posts exactly when it adds an id |
| BotEntries.RepostAsWritten | bot.py:75 | an embed whose id is already in "old" is posted again as written, and skipped with the intended test |
| BotEntries.RunStopsAsWritten | bot.py:80-81 | once an embed without an id raises, the rest of the batch changes nothing |
| BotEntries.EntriesTextRoundTrip | bot.py:83-84 | the "old" file written reads back as the same set of entries |
| BotEntries.AddNewEntriesDrains | bot.py:69-85 | a successful call removes "new" and leaves in "old" the lines read plus the batch's ids; every embed of the batch is posted |
| BotEntries.AddNewEntriesCrash | bot.py:80-85 | an embed without an id stops the call before either file is written |
| BotEntries.Announce | bot.py:76-79 | the embed goes to the feed chosen by the sfw flag, the other feed is untouched |
| BotEntries.AddNewEntries | bot.py:69-85 | the error, both files and both feeds are those of the specification |
| BotEntries.Post | bot.py:76-79 | the embed goes in front of the sfw feed or the nsfw feed, as `sfw` says |
| BotEntries.PostAsWritten | bot.py:75-81 | as written: the embed is posted first, since `new not in old_entries` always holds; then its id is read and added, a missing id raising |
| BotEntries.PostChecked | bot.py:75-81 | corrected: the id is read first; a seen id is not posted; a new one is posted and added |
| BotEntries.RunAsWritten | bot.py:74-82 | as written: the iterations in batch order, stopping at the first exception |
| BotEntries.RunChecked | bot.py:74-82 | corrected: the same loop over the corrected iteration |
| BotEntries.EntriesText | bot.py:83-84 | `"\n".join(old_entries)`, the set listed in ascending string order |
| BotEntries.AddNewEntriesSpec | bot.py:69-85 | as written: a missing file raises `FileNotFoundError`; an exception in the loop keeps the posts made and writes no file; otherwise "old" is rewritten and "new" removed |
| BotLogs.ConcatAppend | bot.py:101 | `"".join` of a concatenation is the concatenation of the joins |
| BotLogs.CollectedLength | bot.py:95-105 | at most `num_lines` lines are taken in all (none for a non-positive count), and all when there are fewer |
| BotLogs.CollectedAll | bot.py:100-102 | a budget above the total takes every line of every file |
| BotLogs.CollectedOldest | bot.py:103-105 | a budget within the first file takes that file's last lines |
| BotLogs.CollectedStep | bot.py:96-105 | one file of the loop: all its lines with the budget reduced, or its last `budget` lines and the budget spent |
| BotLogs.TakeFromFile | bot.py:99-105 | the body of the file loop |
| BotLogs.CollectLogs | bot.py:94-105 | the loop collects the lines the specification gives |
| BotLogs.Fenced | bot.py:111 | each flushed chunk is sent stripped inside a code fence |
| BotLogs.ChunkedBound | bot.py:108-114 | as written no chunk exceeds 1990 characters |
| BotLogs.MessagesFit | bot.py:108-116 | every message sent fits in 2000 characters |
| BotLogs.ChunkDropsLine | bot.py:110-114 | as written the line that causes a flush is lost; corrected, it starts the next chunk |
| BotLogs.ChunkedFixedKeepsLines | bot.py:108-116 | corrected: the chunks put together are every line with its line break, in order |
| BotLogs.KeepsLinesStep | bot.py:110-114 | one corrected step loses no text |
| BotLogs.ChunkedFixedBound | bot.py:108-114 | corrected: every chunk is non-empty and within 1990 characters, unless it is one line that alone is longer |
| BotLogs.FitsLonger | bot.py:108-114 | the bound is kept as more lines come |
| BotLogs.SendChunks | bot.py:108-116 | the chunking loop sends the messages the specification gives |
| BotLogs.PrintLogs | bot.py:88-116 | the messages sent are the chunks of the collected lines |
| BotLogs.Collected | bot.py:95-105 | the lines the file loop takes with budget `n`: whole files while they are shorter than the rest of the budget, then the last lines of the file that uses it up |
| BotLogs.ChunkStep | bot.py:110-114 | as written: a line that would bring the message to 1990 characters flushes the message and is itself dropped; otherwise it is appended with a line break |
| BotLogs.ChunkStepFixed | bot.py:110-114 | corrected: a non-empty message is flushed and the line starts the next one |
| BotLogs.Chunked | bot.py:108-114 | as written: the step over the lines of `log_str.splitlines()` in order, from an empty message |
| BotLogs.ChunkedFixed | bot.py:108-114 | corrected: the corrected step over the lines, in order |
| BotLogs.Fence | bot.py:111 | the body inside a code fence: three backticks and a line break before it, a line break and three backticks after it |
| BotLogs.Messages | bot.py:109-116 | the flushed messages, then the last one when it is not empty, each stripped and fenced |
| BotSource.CleanWrapped | bot.py:151-154 | a link `<x>` loses both brackets |
| BotSource.CleanHalfWrapped | bot.py:151-152 | the leading `<` alone comes off too, which `remove_discord_link_supression` would keep |
| BotSource.CleanTrailing | bot.py:153-154 | a trailing `>` alone comes off |
| BotSource.CleanPlainAndLone | bot.py:151-154 | a plain link is unchanged; the word `<` raises `IndexError` |
| BotSource.CheckLinksFacts | bot.py:146-166 | the links pass exactly when every word cleans to a link answering 200; the valid links are the cleaned words, in order |
| BotSource.ValidateLinks | bot.py:149-166 | the link loop gives what the specification gives |
| BotSource.ValidateStops | bot.py:159-164 | the first failing link ends the command |
| BotSource.BatchPos | bot.py:169 | the `k`th message `logs_from(..., reverse=True)` yields sits in the same block of 100 as window position `k`, read backwards within that block |
| BotSource.LogsOrder | bot.py:169 | `logs_from(..., limit=999999, reverse=True)`: the newest 999999 messages, each at its block-reversed window position |
| BotSource.LogsOrderSmall | bot.py:169 | a feed of at most 100 messages is visited oldest first |
| BotSource.LogsOrderBatched | bot.py:169 | a feed of more than 100 messages is visited starting from its 100th newest message, not its oldest |
| BotSource.IdText | bot.py:140-176 | `str(mal_id)` of the `int` argument that `mal_id: int` converts, a digit string exactly when the id is not negative |
| BotSource.LookAt | bot.py:170-176 | a message is skipped exactly when it has no embed or its id is another; it matches exactly when its id is the one sought |
| BotSource.ScanFor | bot.py:169-176 | a hit is a message that matches |
| BotSource.ScanMiss | bot.py:169-197 | nothing is found exactly when every message is skipped |
| BotSource.ScanHit | bot.py:169-176 | the message hit matches and every earlier one was skipped |
| BotSource.ScanPrefix | bot.py:169-176 | no hit before the hit |
| BotSource.ScanStops | bot.py:176-196 | the loop's first hit or fault ends the search |
| BotSource.SearchLogs | bot.py:169-176 | the search loop gives what the specification gives |
| BotSource.MatchesIsFor | bot.py:176 | only a non-negative id can match, and a message that matches is for the id in the sense of the feed search |
| BotSource.EditFoundTarget | bot.py:169-194 | the message edited is in the window and matches; every message of the newer blocks of 100 is skipped, and so is every older message of its own block |
| BotSource.LogsHit | bot.py:169-176 | a hit of the scan in `logs_from` order, read back in the feed's order: the messages yielded before it are exactly the newer blocks and the older part of its block |
| BotSource.EditFoundOthers | bot.py:194 | no message other than the edited one changes |
| BotSource.EditFoundEmbed | bot.py:177-195 | the edited message holds one embed with the old title, URL, thumbnail and info fields, Source the joined links, and "Added" exactly when there was no Source |
| BotSource.EditMessage | bot.py:168-197 | the search and edit change the feed as the specification says |
| BotSource.Source | bot.py:139-197 | how the command ends and the feed afterwards, as the specification says |
| BotSource.CleanLink | bot.py:151-154 | a leading `<`, then a trailing `>`, come off; an empty link raises `IndexError` |
| BotSource.CheckLinks | bot.py:149-166 | each word of `links.split()` in turn is cleaned, requested and kept when it answers 200; the first missing schema, exception or other status ends the command |
| BotSource.Rebuilt | bot.py:177-192 | `embed['thumbnail']['url']` raises `KeyError` without a thumbnail; otherwise the rebuilt embed with the joined links as Source |
| BotSource.EditFound | bot.py:169-197 | the scan in `logs_from` order: no hit says "Could not find", a fault raises, and a hit rebuilds and edits that message |
| BotSource.SourceSpec | bot.py:139-197 | the link check, then the search and edit with the joined valid links |
| Crawler.JustAddedPageOffset | scrape_mal.py:25-29 | the URL is the listing URL with `show=` the decimal `50 * n` |
| Crawler.JustAddedFirstPages | scrape_mal.py:28-29 | page 0 has offset 0 and page 1 offset 50 |
| Crawler.Clock.constructor | scrape_mal.py:40 | the clock at a given time |
| Crawler.Clock.Sleep | scrape_mal.py:48 | `time.sleep(d)` advances the clock by `d` |
| Crawler.FirstScrapeAfterHalf | scrape_mal.py:40-44 | with `last_scrape = now - wait * 0.5` the first request is allowed after more than half an interval |
| Crawler.Crawl.constructor | scrape_mal.py:37-40 | `last_scrape` starts half an interval back; nothing scraped yet |
| Crawler.Crawl.WaitTill | scrape_mal.py:46-48 | returns only once more than `wait` has passed since the last scrape, sleeping whole seconds and no longer than needed |
| Crawler.Crawl.SleepBackoff | scrape_mal.py:53 | sleeps `wait * count` |
| Crawler.Crawl.Attempt | scrape_mal.py:53-61 | one attempt: backoff, then wait, then the request; a completed request is more than `wait` after the previous one and sets `last_scrape` |
| Crawler.Crawl.Get | scrape_mal.py:50-64 | the result is the reference outcome; the backoffs slept are `wait * k` for each attempt; completed requests stay rate-limited; `last_scrape` moves only on an answer |
| Crawler.Answer | scrape_mal.py:58-61 | an answer ends the loop at that attempt |
| Crawler.GetFromStep | scrape_mal.py:52-64 | one attempt: a request failure moves on to the next, an answer ends the loop |
| Crawler.GetFromFacts | scrape_mal.py:50-64 | `None` exactly when every one of the `retry_max` attempts fails; a 200 is returned and another code raises, at the first attempt that is answered |
| Crawler.BackoffsAt | scrape_mal.py:53 | the `k`th sleep is `wait * k` |
| Crawler.BackoffsStep | scrape_mal.py:53 | one more attempt adds one more backoff |
| Crawler.BackoffsTotal | scrape_mal.py:51-64 | `n` attempts sleep `wait * n(n-1)/2` in backoff |
| Crawler.BackoffsSum | scrape_mal.py:53 | the backoffs sum to `wait` added `n(n-1)/2` times |
| Crawler.TriangleClosed | scrape_mal.py:53 | `0 + 1 + … + (n-1) = n(n-1)/2` |
| Crawler.ScaleIsProduct | scrape_mal.py:53 | the repeated sum is the product |
| Crawler.BackoffsGrow | scrape_mal.py:53 | with a positive wait the backoff strictly increases |
| Crawler.ValidAfter | scrape_mal.py:55-57 | a request after the wait keeps completed requests rate-limited |
| Crawler.NewEntry | scrape_mal.py:79-82 | `in_database` is true only when the value passed is the bool `True` |
| Crawler.ReprRaises | scrape_mal.py:84-85 | as written every `__repr__` raises `NameError` |
| Crawler.ReprFacts | scrape_mal.py:85 | corrected, the text starts with `id: name` and ends with `, in database` exactly when the entry is in the database |
| Crawler.PageRangeCeiling | scrape_mal.py:116 | `page_range` is the ceiling of `total / 300` |
| Crawler.MakeRequestFacts | scrape_mal.py:90-101 | corrected: the list of the first try from `retry` below 5 that succeeds; otherwise, when every try up to `retry == 4` fails, the exception of that last try (the fourth failure for a download's `retry=1`); `retry >= 5` raises at once (a `TypeError` for `None`) |
| Crawler.RetryLostAsWritten | scrape_mal.py:98-101 | as written one failure ends in `NameError`, where the corrected retry returns the next page |
| Crawler.DownloadPagesFacts | scrape_mal.py:119-123 | the download succeeds exactly when every page's request does, and is then the pages' entries in order |
| Crawler.DownloadStops | scrape_mal.py:120-123 | the first failing page ends the download with its error |
| Crawler.DownloadAnimeList | scrape_mal.py:115-125 | the loop over pages `1 … page_range` gives what the specification gives |
| Crawler.JustAddedPage | scrape_mal.py:25-29 | the just-added listing URL at offset `50 * n` |
| Crawler.GetFrom | scrape_mal.py:50-64 | `get`'s loop from attempt `a`: a `RequestException` moves to the next attempt, an answer ends the loop, and running out of attempts gives no answer |
| Crawler.ReprAsWritten | scrape_mal.py:84-85 | as written: `NameError` for every entry |
| Crawler.Repr | scrape_mal.py:84-85 | corrected: the id, a colon, the name, then `, in database` or `, not in database` |
| Crawler.PageRange | scrape_mal.py:116 | `total // 300`, plus one when there is a remainder |
| Crawler.Raise | scrape_mal.py:92-93 | `raise jikan_exception`: that exception, or `TypeError` when it is `None` |
| Crawler.MakeRequestAsWritten | scrape_mal.py:90-101 | as written: at `retry >= 5` the last exception is raised; a success returns the ids; a failure raises `NameError` |
| Crawler.MakeRequest | scrape_mal.py:90-101 | corrected: a failure retries the same page with `retry + 1` and that exception |
| Crawler.DownloadPages | scrape_mal.py:119-123 | pages `1` to `pages`, each requested as written with `retry=1`, their ids extended in order; the first error ends the download |
| Crawler.DownloadSpec | scrape_mal.py:116-123 | `download_anime_list` from the total on: no page when `page_range` is not positive |

## Left out

- The Discord client: commands, permission checks, help text, error
  dispatch, `on_message`, `test_log`, `restart`, message publishing and the
  channel's "can't publish" warning. A channel is only its message
  history.
- Network and library calls: `requests`, Jikan, `session.safe_json_request`,
  `fetch_anime_details`, the `backoff` decorators. Their results are
  parameters.
- The HTML scraping of `get_data` in `embeds.py` and of
  `get_image_and_synopsis` in `update_embeds.py`. Their builders take the
  scraped details as given.
- git (`update_git_repo`), JSON decoding in `read_json_cache`, pickle,
  `aiofiles`, the pid file, `os.system`, colours and logging. The catalog
  is a list of ids; a file is an optional text or batch.
- Asyncio scheduling, `sleep` calls in the bot, the polling and export
  loops, and concurrency between the scraper and the bot.
- The `log` decorator's logging. Only its use of a fresh `uuid` per call is
  modelled (`MalUtils.LogCallIds`).
- `download_anime_list`'s profile request, its 404 exit and the writing of
  the result. `main` and `argparse` of `scrape_mal.py`. `get_html`,
  `get_soup`, `get_json` and `get_just_added_page`, which only feed
  `get`'s response to a parser.
- The forum and user modules, thin wrappers over remote APIs.
- Python's set iteration order. `bot.py` writes `"\n".join(old_entries)`
  in an order the model fixes as ascending string order, and `mal.py`'s
  `list(set(ids) - set(old_ids))` is taken in catalog order. Only the set
  of lines is claimed.
- `glob` and `getmtime`: the log files are given already in ascending
  modification time.
- SeenSet.OldDatabase.Dump: `int()` is taken to accept exactly non-empty
  ASCII digit strings. Python also accepts signs, surrounding whitespace,
  underscores and other Unicode digits. `\d` and `str.isspace` are
  likewise ASCII and CPython's whitespace set.
- LegacyCycle.ParseOldFacts: the same restriction of `int()`.
- `dump` sorts with `key=int`. Ties between different strings with the
  same value (`7` and `07`) are broken by string order. The code would
  keep their set order.
- `mal.py` writes "new" before "old". A crash between the two writes is
  not modelled.
- Crawler.Crawl.constructor: requires `wait >= 0`. With a negative `wait`,
  `time.sleep` raises `ValueError`; that path is not modelled.
- Crawler.Crawl.Get: requests take no time, and `time.time()` is exact.
- `truncate` takes the `repr` text as its input; `repr` itself is not
  modelled.
- LegacyCycle.Pickles: models `mal.py:86` with the crawler argument supplied; as written the call raises `TypeError` (`LegacyCycle.CycleTypeError`).
- LegacyCycle.PicklesAt: models `mal.py:86` with the crawler argument supplied; as written the call raises `TypeError` (`LegacyCycle.CycleTypeError`).
- LegacyCycle.CycleNewIds: models `mal.py:86` with the crawler argument supplied; as written the call raises `TypeError` (`LegacyCycle.CycleTypeError`).
- LegacyCycle.CycleAnnounces: models `mal.py:86` with the crawler argument supplied; as written the call raises `TypeError` (`LegacyCycle.CycleTypeError`).
- LegacyCycle.MakePickles: models `mal.py:86` with the crawler argument supplied; as written the call raises `TypeError` (`LegacyCycle.CycleTypeError`).
- LegacyCycle.Loop: models `mal.py:86` with the crawler argument supplied; as written the call raises `TypeError` (`LegacyCycle.CycleTypeError`).
- AnimeData.UnslugifyPointwise: `Upper` and `Lower` change only the ASCII
  letters. `str.capitalize` in `unslugify`
  (`mal_notify_bot/utils/embeds.py:40`) also changes other cased letters,
  and title-cases characters such as `ǆ`; the model leaves every non-ASCII
  character as it is.
- AnimeData.GetData: a JSON `null` status cannot be given, since the
  answer's `status` is an `Option<string>` whose `None` stands for an absent
  key. For `null`, `resp.get("status", "Unknown")` gives `None` and
  `unslugify(None)` raises `AttributeError`
  (`mal_notify_bot/utils/embeds.py:79`); that error path is not modelled.
- BotSource.LogsOrder: the block order is discord.py 0.16's iteration of
  `logs_from` without `after`, as the library documents it. The library is
  not part of this model, and a feed that changes during the search is not
  modelled.
- `print_new_embeds` waits `sleep(2)` before the confirming search. The
  model has no delay: `lands` says whether the message is visible by then.

## Findings

| source | as written | input that shows it | evidently intended | confidence | as-written member | corrected member |
|---|---|---|---|---|---|---|
| update_embeds.py:49-63 | `return` is inside the `for` loop, so `add_source` looks at the first field only and returns `None` for an embed with no fields | an embed with a Status then a Synopsis field loses its Synopsis; an embed with no fields gives `None`, which the caller cannot unpack | the `return` after the loop, so every field is copied | not executed | UpdateEmbeds.AddSourceDropsSynopsis | UpdateEmbeds.SourcedEmbedFacts |
| mal_notify_bot/main.py:275-278 | a missing "old" file is opened with `open(path)`, in read mode, which raises `FileNotFoundError` before `dump` runs | an "old" file that disappears after `print_new_embeds` reads it (`:304`) and before `create_new_embeds` tests it (`:275`), or a call of `create_new_embeds` from elsewhere; at start-up `:45` already fails on a missing file | the file is created with every catalog id and no id counts as new | not executed | Delivery.MissingOldFile | Delivery.CreationFacts |
| bot.py:75 | `new not in old_entries` tests the Embed object against a set of id strings, so it always holds | an embed whose id is already in "old" is posted again | test the embed's extracted id | not executed | BotEntries.RepostAsWritten | BotEntries.RunCheckedFacts |
| bot.py:110-114 | when a line would bring the chunk to 1990 characters, the chunk is flushed and that line is dropped | a line of 1989 characters followed by any line: the second line is never sent | the line starts the next chunk | not executed | BotLogs.ChunkDropsLine | BotLogs.ChunkedFixedKeepsLines |
| scrape_mal.py:98-101 | the `except` clause names `jikanpy`, which `scrape_mal.py` imports only inside `main`, so the first failure raises `NameError`; the retry call also passes its arguments in the wrong order | page request fails once, then succeeds on the next try | retry the same page with `retry + 1` until `retry` reaches 5 | not executed | Crawler.RetryLostAsWritten | Crawler.MakeRequestFacts |
| mal_notify_bot/utils/embeds.py:73 | `synopsis.replace("\r", "")` discards its result, so carriage returns stay in the synopsis (likewise utils/embeds.py:28) | the synopsis `"a\r\nb"` | `synopsis = synopsis.replace("\r", "")` | not executed | AnimeData.CarriageReturnSurvives | AnimeData.NormaliseSynopsisFacts |
| utils/embeds.py:22-24 | `image.startswith(...)` runs when `image` is `None`, which raises `AttributeError` | `refresh_embed(..., remove_image=True)`, or a Jikan answer without an image | test the placeholder only when there is an image | not executed | LegacyEmbeds.IgnoreImageRaises | LegacyEmbeds.GetDataJikan |
| mal.py:86 | `create_embed(int(new_id), logger)` calls the `create_embed(mal_id, crawler, logger)` of embeds.py:94 with two arguments, which raises `TypeError`; `main` logs it, neither file is written, and the next cycle fails on the same id | any catalog id missing from "old" | pass a crawler as the second argument | not executed | LegacyCycle.CycleTypeError | LegacyCycle.CycleAnnounces |
| scrape_mal.py:84-85 | `__repr__` formats the builtin `id` and an undefined global `name`, so it raises `NameError` | any entry | `self.id` and `self.name` | not executed | Crawler.ReprRaises | Crawler.ReprFacts |
