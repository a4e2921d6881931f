# Discord bot decision logic, modelled in Dafny

This project models the decision logic of a Discord community bot. The async plumbing and
the discord.py and aiohttp libraries are left out. Three parts are modelled.

- **The bot's own handlers** (`src/main.py`, module `Lifecycle`). The `Bot` class holds the
  readiness flag and the channel and role maps. `on_message` drops messages while the bot is
  not ready. It handles the owner's `/off` shutdown command. It defuses `@everyone` and
  `@here` before handing the message to command processing. `config` fills the maps from the
  configured ids, and `on_ready` sets the readiness flag.
- **The media rater cog** (`src/cogs/media_rate.py`, modules `UrlScan` and `MediaRateCog`).
  The constructor resolves the configured channels. The URL pattern and `findall` are a
  verified scanner. `message_has_media` is a short-circuit cascade. The order is:
  attachments, embed media fields, the `rate_any_url` shortcut, then a loop over the URLs.
  Each URL gets an extension-based MIME guess first, then a fetch whose body is searched for
  OpenGraph tags. The listener adds an up-vote and a down-vote after a delay.
- **The keyword responder cog** (`src/cogs/fun.py`, module `FunCog`). If the lower-cased
  content contains `morb`, it sleeps and adds one reaction.

Shared pieces:
- `Wrappers`: `Option` and `Result`.
- `Strings`: ASCII lower-casing, substring search and `str.replace`.
- `Discord`: ids, guilds, messages, embeds, the configuration document, handler events and
  the exceptions that escape a handler.

How I/O is represented:
- The MIME guess is a function parameter from URL to an optional MIME type. The fetch is a
  function parameter from URL to `Body(text) | BodyReadError | RequestError`.
- The guild returned by `get_guild` is a parameter (`Option<Guild>`).
- Sleeps and reactions are `Event`s in a returned trace. Client calls (`delete`, `close`,
  `logout`, `process_commands`) are `ClientCall`s. Fetched URLs are a separate trace, so
  "no fetch happened" can be stated.
- An exception that escapes a handler is a `Fault` value.

Where the code differs from the design description of the system, the model follows the code:
- The embed check looks at `video`, `thumbnail` and `image`, not at audio
  (`src/cogs/media_rate.py:46`).
- Only reading the response body is inside the `try`. A failure of the request itself is not
  caught and escapes `message_has_media` (`RequestFailed`). Only a body-read error moves on
  to the next URL.
- A configured rating channel that is not among the bot's channels does not simply disable
  the rater. The constructor returns with the channel ids collected so far and leaves the
  emoji and `rate_any_url` attributes unset. Later messages in those channels raise
  `AttributeError`, either at `rate_any_url` or after the first sleep at `upvote_emoji`.
  They never get a reaction. With no rating channel configured, the channel id list itself is
  unset, so every message raises at the channel check. A channel name whose channel
  resolved to `None` raises in the constructor.
- `config` does not fail on an unknown channel or role id: it stores `None` for it. It
  raises only when the guild itself is unknown and there is something to look up.
- The cogs' listeners are registered with the client. `on_message` does not call them. So
  the readiness gate and the shutdown return do not stop a cog from seeing a message.
  `on_message` does rewrite the content of the same message object the cogs receive. Whether a
  cog sees the defused text depends on the order in which the library runs the listeners.
  That order is not modelled: the cog models take the content as given.
- `on_ready` sets the readiness flag before registering the cogs. A failure during
  registration closes the client but leaves the flag set.
- The owner's `/off` deletes the message inside `try` and closes the client in `finally`.
  The `return` inside `finally` discards an exception raised by the delete, so the handler
  always ends normally.

The URL pattern's alternatives all fall inside one character class: `!`, the range `$`..`_`,
and `a`..`z`. The range already holds `%`, the digits, the capitals and `@.&+*(),:/?`. So a
match is `http://` or `https://` followed by a maximal, non-empty run of that class, and
`findall` reports the leftmost match and resumes after it.

## Model

| member | source | states |
|---|---|---|
| `Lifecycle.Sanitize` | src/main.py:42-44 | After `@everyone` and then `@here` are replaced by their defused forms, the content contains neither token |
| `Lifecycle.ReplaceAddsNoMention` | src/main.py:43-44 | Replacing one mass mention by its defused form removes it and creates no mass mention that was not already in the content |
| `Lifecycle.SanitizeIdempotent` | src/main.py:43-44 | Sanitising an already sanitised content changes nothing |
| `Lifecycle.SanitizeKeepsCleanContent` | src/main.py:43-44 | Content containing neither `@everyone` nor `@here` is left unchanged |
| `Strings.Replace` | src/main.py:43-44 | `str.replace`: a replacement at least as long as the pattern never shortens the text and one no longer never lengthens it; text starting with the pattern starts with the replacement |
| `Strings.Lower` | src/main.py:34 | `.lower()` keeps the length, leaves no ASCII capital, keeps every other character and maps each capital to its lower-case letter |
| `Strings.ReplaceWithoutOccurrence` | src/main.py:43 | `str.replace` with a pattern that does not occur returns the string unchanged |
| `Lifecycle.IsShutdownCommand` | src/main.py:32-34 | The shutdown test holds exactly when the author is the owner and the original content starts with `/off` in any mix of cases; a non-owner or a `/off` not at position 0 never triggers it |
| `Lifecycle.Bot.OnMessage` | src/main.py:27-47 | When not ready: no call and the content is unchanged. For the owner's `/off`: delete, close, logout, content unchanged, and no exception even when the delete raises. Otherwise: the content becomes its sanitised form and command processing is called exactly once, with the sanitised message |
| `Lifecycle.Bot.Configure` | src/main.py:60-73 | With a known guild, the channel and role maps have exactly the configured names as keys, each mapped to the guild's lookup of its configured id. With an unknown guild, the lookup raises as soon as there is a name to resolve. The readiness flag is untouched |
| `Lifecycle.Bot.OnReady` | src/main.py:76-93 | If `config` raises, the flag keeps its old value and the handler closes, logs out and raises. Otherwise the flag is set after the maps are built; a failing cog registration then closes, logs out and raises with the flag still set. With a known guild the maps are fully resolved; with an unknown guild the channel map is empty and the role map is empty too, unless the raise at the first channel left it as it was |
| `Lifecycle.Bot.Start` | src/main.py:96-98 | The bot starts with the readiness flag cleared and empty maps |
| `UrlScan.MatchAt` | src/cogs/media_rate.py:15-17 | A match at `i` begins with a scheme, has at least one URL character after it, consists of URL characters up to its end, and stops only at the end of the text or at a character outside the class |
| `UrlScan.MatchAtIsMaximalUrl` | src/cogs/media_rate.py:15-17 | A match starting at `i` ends at `e` exactly when `http://` or `https://` plus at least one URL character spans `i..e` and the next character is outside the class, or the text ends |
| `UrlScan.SpansFrom` | src/cogs/media_rate.py:51 | Every reported span is a match at its start, ending where the greedy match ends, and the spans come in text order without overlapping |
| `UrlScan.SpansFromComplete` | src/cogs/media_rate.py:51 | Every position where a match could start lies inside a reported span: the search is leftmost and skips nothing |
| `UrlScan.Urls` | src/cogs/media_rate.py:51 | `findall` returns one URL per reported span, and every one of them is URL-shaped |
| `UrlScan.FoundUrlsAreMaximal` | src/cogs/media_rate.py:15-17 | Each found URL is the text of its span, starts with a scheme, continues with URL characters only, and is maximal; consecutive URLs do not overlap |
| `UrlScan.EveryUrlIsFound` | src/cogs/media_rate.py:51 | Every URL-shaped substring of the content starts inside one of the URLs found |
| `UrlScan.NoUrlsIffNoUrlShape` | src/cogs/media_rate.py:51 | `findall` returns nothing exactly when no substring is URL-shaped |
| `MediaRateCog.ResolvedIds` | src/cogs/media_rate.py:27-34 | The collected ids are those of the leading configured names that resolve to a channel, in order, and the next name, if any, does not resolve |
| `MediaRateCog.NewMediaRate` | src/cogs/media_rate.py:13-38 | No configured channel: no ids and no settings. A name missing from the bot's channels: the ids collected so far and no settings. A name whose channel is `None`: `AttributeError`. All names resolved: every id, with the up-vote, down-vote and `rate_any_url` defaults 👍, 👎 and false |
| `MediaRateCog.EmbedsHaveMedia` | src/cogs/media_rate.py:45-49 | True exactly when some embed has a video, thumbnail or image field |
| `MediaRateCog.CheckUrl` | src/cogs/media_rate.py:57-74 | One URL: a media MIME guess is a hit whatever the page holds; otherwise the request failing is a failure, a body with an OpenGraph media tag is a hit, and a body without one or an unreadable body is inconclusive |
| `MediaRateCog.ScanUrls` | src/cogs/media_rate.py:56-76 | The URL loop examines at least one URL when there is one and never more than there are, fetches at most once per examined URL, and reports no media only after examining and fetching every URL; its decision rule is `ScanStopsAtFirstConclusiveUrl` |
| `MediaRateCog.ScanStopsAtFirstConclusiveUrl` | src/cogs/media_rate.py:56-76 | The loop is decided by the first URL whose check is not inconclusive. A MIME hit or an OpenGraph tag makes it media; a failed request escapes as `RequestFailed` of that URL; no media only when every URL is inconclusive. Exactly the examined URLs whose MIME guess is not media are fetched, once each, in order, and nothing after the first positive |
| `MediaRateCog.Classify` | src/cogs/media_rate.py:40-76 | An attachment or an embed media field gives media with no fetch. `rate_any_url` with at least one URL gives media with no fetch. With no URL, the result is not media (absent an attachment or embed hit) and no fetch is made. With the settings unset and no attachment or embed hit, `AttributeError` escapes before any fetch |
| `MediaRateCog.FetchIsLastResort` | src/cogs/media_rate.py:40-76 | A fetch happens only without attachment, embed media or the `rate_any_url` shortcut. Only URLs found in the text whose MIME guess is not media are fetched |
| `MediaRateCog.VerdictHasEvidence` | src/cogs/media_rate.py:40-76 | Media is only reported with evidence: an attachment, an embed field, the shortcut, or a URL with a MIME or tag hit. "Not media" holds exactly when every stage came up empty |
| `MediaRateCog.MessageHasMedia` | src/cogs/media_rate.py:40-76 | The step-by-step cascade, with its early returns and its loop, returns and fetches exactly what `Classify` describes |
| `MediaRateCog.Rate` | src/cogs/media_rate.py:78-87 | A message outside the rating channels gets no classification, fetch or reaction. A disabled rater never reacts. With settings present, a reaction happens exactly for a positive result in a rating channel, and it is exactly sleep, up-vote, sleep, down-vote. An exception from the classifier escapes with no reaction. A message outside the rating channels (when they are set) or a negative verdict ends normally with no reaction. A positive verdict with the settings unset sleeps once and then raises `AttributeError` |
| `MediaRateCog.OnMessage` | src/cogs/media_rate.py:78-87 | The listener, step by step, produces exactly the run `Rate` describes |
| `FunCog.NewFun` | src/cogs/fun.py:10-12 | The reaction emoji is the configured `morb_emoji`, or 🚩 when none is configured |
| `FunCog.MorbIgnoresCase` | src/cogs/fun.py:16-18 | The indicator matches exactly when four consecutive characters spell `morb` in any mix of upper and lower case |
| `FunCog.MorbDetector` | src/cogs/fun.py:14-21 | A message mentioning the indicator gets exactly one sleep followed by exactly one reaction with the configured emoji; any other message gets nothing |
| `FunCog.OnMessage` | src/cogs/fun.py:23-25 | Every message, whatever its channel or author, gets exactly the detector's behaviour |

## Left out

- `Lifecycle.Bot.Start`: the bot record's initial guild (none) and empty channel and role maps are assumed. `BotClass` is not part of this model; the source only clears the readiness flag here.
- `MediaRateCog.EmbedsHaveMedia`: models the evidently intended test, under which an embed counts as media when it carries a video, thumbnail or image. discord.py is not part of this model. In its releases these properties return a proxy object, never the empty sentinel, so the comparison at `src/cogs/media_rate.py:47` as written may count every embed as media, or raise where the sentinel no longer exists. The model does not capture that.
- The discord.py client is not modelled: gateway, login, `client.run`, `add_cog`, listener dispatch and the order in which listeners run.
- `on_error` is not modelled. Neither is the logging of uncaught errors through `format_exc` and `utils.log_error`.
- `post_init` registers the seven cogs. It is not modelled and is a boolean parameter of `Lifecycle.Bot.OnReady`. The source of five of those cogs is not part of this model: invite_check, leave_message, message_logging, suggestions and voice_channel_hoist.
- `utils` is not part of this model: `BotClass`, `load_config_to_bot`, `censor_text`, `do_log`, `log_error`. Loading the configuration and the token from the environment are also outside the model.
- `Lifecycle.Bot.OnReady`: reading `client.user` for the log lines is assumed not to raise.
- `Lifecycle.Bot.OnMessage`: `close` and `logout` are assumed not to raise. A failure inside `process_commands` is not modelled.
- aiohttp networking is not modelled: sessions, timeouts, and decoding of the response. A fetch is a function of the URL, so one URL gives the same answer each time within a classification.
- `mimetypes.guess_type` is kept abstract; its extension table is not modelled.
- `MediaRateCog.OnMessage`: `add_reaction` is assumed to succeed. In the source, a failing up-vote would raise and skip the down-vote.
- `asyncio` sleeps are events in a trace, not real time. Interleaving of handlers for different messages is not modelled.
- Lower-casing is ASCII only. Python's full Unicode `str.lower` is not modelled.
