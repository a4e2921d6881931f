/**
 * The media rater cog (src/cogs/media_rate.py): its construction from the configuration,
 * the cascade that decides whether a message holds media, and the reactions it adds.
 * The MIME guess from a URL and the HTTP fetch are parameters.
 */
module MediaRateCog {
  import opened Wrappers
  import opened Strings
  import opened Discord
  import opened UrlScan

  const DefaultUpvote := "\U{1F44D}"
  const DefaultDownvote := "\U{1F44E}"

  /** The settings the constructor reads last; they are either all set or all unset. */
  datatype Settings = Settings(upvote: string, downvote: string, rateAnyUrl: bool)

  /**
   * The cog after construction. `channelIds` is unset when no channel is configured;
   * `settings` is unset whenever the constructor returned early.
   */
  datatype MediaRate = MediaRate(channelIds: Option<seq<ChannelId>>, settings: Option<Settings>)

  predicate Resolvable(channels: map<string, Option<Channel>>, name: string) {
    name in channels && channels[name].Some?
  }

  /** The ids of the configured channels, up to the first one that does not resolve to a channel. */
  function ResolvedIds(names: seq<string>, channels: map<string, Option<Channel>>): (ids: seq<ChannelId>)
    ensures |ids| <= |names|
    ensures forall j :: 0 <= j < |ids| ==>
              Resolvable(channels, names[j]) && ids[j] == channels[names[j]].value.id
    ensures |ids| < |names| ==> !Resolvable(channels, names[|ids|])
  {
    if names == [] || !Resolvable(channels, names[0]) then []
    else [channels[names[0]].value.id] + ResolvedIds(names[1..], channels)
  }

  function DefaultSettings(cfg: Config): Settings {
    Settings(cfg.mediaRateUpvote.GetOr(DefaultUpvote),
             cfg.mediaRateDownvote.GetOr(DefaultDownvote),
             cfg.mediaRateAnyUrl.GetOr(false))
  }

  /**
   * `MediaRate.__init__`: no configured channel leaves the cog without channel ids; a name
   * missing from the bot's channels stops the constructor with the ids collected so far; a
   * name whose channel is `None` raises on `.id`. Only a full resolution reads the settings.
   */
  method NewMediaRate(cfg: Config, channels: map<string, Option<Channel>>) returns (r: Result<MediaRate, Fault>)
    ensures cfg.mediaRateChannels == [] ==> r == Success(MediaRate(None, None))
    ensures var names := cfg.mediaRateChannels; var ids := ResolvedIds(names, channels);
            names != [] ==>
              && (|ids| == |names| ==> r == Success(MediaRate(Some(ids), Some(DefaultSettings(cfg)))))
              && (|ids| < |names| && names[|ids|] !in channels ==> r == Success(MediaRate(Some(ids), None)))
              && (|ids| < |names| && names[|ids|] in channels ==> r == Failure(AttributeError))
  {
    var names := cfg.mediaRateChannels;
    if names == [] {
      return Success(MediaRate(None, None));
    }
    ghost var resolved := ResolvedIds(names, channels);
    var ids: seq<ChannelId> := [];
    for i := 0 to |names|
      invariant i <= |resolved| && ids == resolved[..i]
    {
      var name := names[i];
      if name !in channels {
        assert |resolved| == i && ids == resolved;
        return Success(MediaRate(Some(ids), None));
      }
      var channel := channels[name];
      if channel.None? {
        assert |resolved| == i && ids == resolved;
        return Failure(AttributeError);
      }
      ids := ids + [channel.value.id];
    }
    assert ids == resolved;
    return Success(MediaRate(Some(ids), Some(DefaultSettings(cfg))));
  }

  /** `mimetypes.guess_type`, reduced to the MIME type it guesses from a URL. */
  type MimeGuess = string -> Option<string>

  /** What fetching a URL yields: a body, a failure while reading the body, or a failed request. */
  datatype Fetch = Body(text: string) | BodyReadError | RequestError

  type Fetcher = string -> Fetch

  predicate IsMediaMime(mime: Option<string>) {
    mime.Some? && ("image" <= mime.value || "video" <= mime.value || "audio" <= mime.value)
  }

  /** The page carries an OpenGraph media tag. */
  predicate HasEmbedTag(body: string) {
    Contains(body, "og:image") || Contains(body, "og:video") || Contains(body, "og:audio")
  }

  predicate EmbedHasMedia(e: Embed) {
    e.video.Some? || e.thumbnail.Some? || e.image.Some?
  }

  function EmbedsHaveMedia(embeds: seq<Embed>): (r: bool)
    ensures r <==> exists k :: 0 <= k < |embeds| && EmbedHasMedia(embeds[k])
  {
    if embeds == [] then false
    else
      assert forall k :: 0 <= k < |embeds| - 1 ==> embeds[1..][k] == embeds[k + 1];
      EmbedHasMedia(embeds[0]) || EmbedsHaveMedia(embeds[1..])
  }

  /** What examining one URL tells: media by its extension, media by its page, nothing, or an error. */
  datatype UrlCheck = MimeHit | TagHit | Inconclusive | RequestFailure

  function CheckUrl(url: string, guess: MimeGuess, fetch: Fetcher): (c: UrlCheck)
    ensures c == MimeHit <==> IsMediaMime(guess(url))
    ensures c == RequestFailure <==> !IsMediaMime(guess(url)) && fetch(url).RequestError?
    ensures c == TagHit <==> !IsMediaMime(guess(url)) && fetch(url).Body? && HasEmbedTag(fetch(url).text)
  {
    if IsMediaMime(guess(url)) then MimeHit
    else match fetch(url)
      case RequestError => RequestFailure
      case BodyReadError => Inconclusive
      case Body(b) => if HasEmbedTag(b) then TagHit else Inconclusive
  }

  /** The URLs whose guessed MIME type is not media, in order: those that get fetched. */
  function Unguessed(urls: seq<string>, guess: MimeGuess): seq<string> {
    if urls == [] then []
    else (if IsMediaMime(guess(urls[0])) then [] else [urls[0]]) + Unguessed(urls[1..], guess)
  }

  lemma {:induction false} UnguessedMembers(urls: seq<string>, guess: MimeGuess)
    ensures forall u :: u in Unguessed(urls, guess) ==> u in urls && !IsMediaMime(guess(u))
  {
    if urls != [] {
      UnguessedMembers(urls[1..], guess);
    }
  }

  /** How `message_has_media` returns: a verdict, or an exception that escapes it. */
  datatype Outcome = Returned(media: bool) | Raised(fault: Fault)

  /** The result of the URL loop: its outcome, how many URLs it examined and which it fetched. */
  datatype Scan = Scan(outcome: Outcome, examined: nat, fetched: seq<string>)

  function ScanUrls(urls: seq<string>, guess: MimeGuess, fetch: Fetcher): (r: Scan)
    ensures r.examined <= |urls|
    ensures |r.fetched| <= r.examined
    ensures urls != [] <==> 0 < r.examined
    ensures r.outcome == Returned(false) ==> r.examined == |urls| && |r.fetched| == |urls|
  {
    if urls == [] then Scan(Returned(false), 0, [])
    else match CheckUrl(urls[0], guess, fetch)
      case MimeHit => Scan(Returned(true), 1, [])
      case TagHit => Scan(Returned(true), 1, [urls[0]])
      case RequestFailure => Scan(Raised(RequestFailed(urls[0])), 1, [urls[0]])
      case Inconclusive =>
        var rest := ScanUrls(urls[1..], guess, fetch);
        Scan(rest.outcome, rest.examined + 1, [urls[0]] + rest.fetched)
  }

  /**
   * The URL loop is decided by the first URL whose check is not inconclusive: a hit makes
   * it media, a failed request escapes, and exhausting the URLs means no media. Exactly the
   * URLs up to that one whose MIME guess is not media are fetched, once each and in order.
   */
  lemma {:induction false} ScanStopsAtFirstConclusiveUrl(urls: seq<string>, guess: MimeGuess, fetch: Fetcher)
    ensures var r := ScanUrls(urls, guess, fetch);
            && r.fetched == Unguessed(urls[..r.examined], guess)
            && (forall k :: 0 <= k < r.examined - 1 ==> CheckUrl(urls[k], guess, fetch) == Inconclusive)
            && (r.outcome == Returned(false) <==>
                  r.examined == |urls| && forall k :: 0 <= k < |urls| ==> CheckUrl(urls[k], guess, fetch) == Inconclusive)
            && (r.outcome == Returned(true) <==>
                  0 < r.examined && (CheckUrl(urls[r.examined - 1], guess, fetch).MimeHit?
                                     || CheckUrl(urls[r.examined - 1], guess, fetch).TagHit?))
            && (r.outcome.Raised? <==>
                  0 < r.examined && CheckUrl(urls[r.examined - 1], guess, fetch) == RequestFailure)
            && (r.outcome.Raised? ==> r.outcome == Raised(RequestFailed(urls[r.examined - 1])))
  {
    if urls != [] {
      var u := urls[0];
      assert Unguessed([u], guess) == (if IsMediaMime(guess(u)) then [] else [u]);
      if CheckUrl(u, guess, fetch) == Inconclusive {
        var tail := urls[1..];
        ScanStopsAtFirstConclusiveUrl(tail, guess, fetch);
        var rest := ScanUrls(tail, guess, fetch);
        assert urls[..rest.examined + 1][1..] == tail[..rest.examined];
        assert forall k :: 0 <= k < |tail| ==> tail[k] == urls[k + 1];
      }
    }
  }

  /** One step of the URL loop, seen from position `i`. */
  lemma ScanUrlsAt(urls: seq<string>, i: nat, guess: MimeGuess, fetch: Fetcher)
    requires i < |urls|
    ensures var here := ScanUrls(urls[i..], guess, fetch);
            var next := ScanUrls(urls[i + 1..], guess, fetch);
            match CheckUrl(urls[i], guess, fetch)
            case MimeHit => here.outcome == Returned(true) && here.fetched == []
            case TagHit => here.outcome == Returned(true) && here.fetched == [urls[i]]
            case RequestFailure => here.outcome == Raised(RequestFailed(urls[i])) && here.fetched == [urls[i]]
            case Inconclusive => here.outcome == next.outcome && here.fetched == [urls[i]] + next.fetched
  {
    assert urls[i..][1..] == urls[i + 1..];
  }

  /** What `message_has_media` returns or raises, and the URLs it fetched on the way. */
  datatype Classification = Classification(outcome: Outcome, fetched: seq<string>)

  /**
   * `message_has_media`: attachments, then embed media fields, then (once the URLs are
   * extracted) the `rate_any_url` shortcut, then the URL loop.
   */
  function Classify(cog: MediaRate, m: Snapshot, guess: MimeGuess, fetch: Fetcher): (c: Classification)
    ensures |m.attachments| > 0 ==> c == Classification(Returned(true), [])
    ensures EmbedsHaveMedia(m.embeds) ==> c == Classification(Returned(true), [])
    ensures cog.settings.Some? && cog.settings.value.rateAnyUrl && Urls(m.content) != [] ==>
              c == Classification(Returned(true), [])
    ensures cog.settings.Some? && Urls(m.content) == [] ==>
              c == Classification(Returned(|m.attachments| > 0 || EmbedsHaveMedia(m.embeds)), [])
    ensures cog.settings.None? && |m.attachments| == 0 && !EmbedsHaveMedia(m.embeds) ==>
              c == Classification(Raised(AttributeError), [])
  {
    if |m.attachments| > 0 then Classification(Returned(true), [])
    else if EmbedsHaveMedia(m.embeds) then Classification(Returned(true), [])
    else
      var urls := Urls(m.content);
      if cog.settings.None? then Classification(Raised(AttributeError), [])
      else if cog.settings.value.rateAnyUrl && |urls| > 0 then Classification(Returned(true), [])
      else
        var r := ScanUrls(urls, guess, fetch);
        Classification(r.outcome, r.fetched)
  }

  /**
   * A fetch is the last resort: it happens only when there is no attachment, no embed media
   * and no `rate_any_url` shortcut, and only for URLs found in the text whose MIME guess is
   * not media.
   */
  lemma FetchIsLastResort(cog: MediaRate, m: Snapshot, guess: MimeGuess, fetch: Fetcher)
    ensures var c := Classify(cog, m, guess, fetch);
            && (c.fetched != [] ==>
                  |m.attachments| == 0 && !EmbedsHaveMedia(m.embeds)
                  && cog.settings.Some? && !cog.settings.value.rateAnyUrl)
            && forall u :: u in c.fetched ==> u in Urls(m.content) && !IsMediaMime(guess(u))
  {
    var urls := Urls(m.content);
    var r := ScanUrls(urls, guess, fetch);
    ScanStopsAtFirstConclusiveUrl(urls, guess, fetch);
    UnguessedMembers(urls[..r.examined], guess);
    assert forall u :: u in urls[..r.examined] ==> u in urls;
  }

  /**
   * A positive verdict always has evidence behind it, and a negative one means every stage
   * came up empty: no attachment, no embed media, no shortcut, every URL inconclusive.
   */
  lemma VerdictHasEvidence(cog: MediaRate, m: Snapshot, guess: MimeGuess, fetch: Fetcher)
    ensures var c := Classify(cog, m, guess, fetch); var urls := Urls(m.content);
            && (c.outcome == Returned(true) ==>
                  || |m.attachments| > 0 || EmbedsHaveMedia(m.embeds)
                  || (cog.settings.Some? && cog.settings.value.rateAnyUrl && urls != [])
                  || exists k :: 0 <= k < |urls| && (CheckUrl(urls[k], guess, fetch).MimeHit?
                                                     || CheckUrl(urls[k], guess, fetch).TagHit?))
            && (c.outcome == Returned(false) <==>
                  && |m.attachments| == 0 && !EmbedsHaveMedia(m.embeds) && cog.settings.Some?
                  && (!cog.settings.value.rateAnyUrl || urls == [])
                  && forall k :: 0 <= k < |urls| ==> CheckUrl(urls[k], guess, fetch) == Inconclusive)
  {
    ScanStopsAtFirstConclusiveUrl(Urls(m.content), guess, fetch);
  }

  /** `message_has_media`, step by step; `fetched` records every URL handed to `session.get`. */
  method MessageHasMedia(cog: MediaRate, m: Message, guess: MimeGuess, fetch: Fetcher)
    returns (outcome: Outcome, fetched: seq<string>)
    ensures Classification(outcome, fetched) == Classify(cog, m.View(), guess, fetch)
  {
    fetched := [];
    if |m.attachments| > 0 {
      return Returned(true), fetched;
    }
    if EmbedsHaveMedia(m.embeds) {
      return Returned(true), fetched;
    }
    var urls := Urls(m.content);
    if cog.settings.None? {
      return Raised(AttributeError), fetched;
    }
    if cog.settings.value.rateAnyUrl && |urls| > 0 {
      return Returned(true), fetched;
    }
    var i := 0;
    while i < |urls|
      invariant 0 <= i <= |urls|
      invariant ScanUrls(urls, guess, fetch).outcome == ScanUrls(urls[i..], guess, fetch).outcome
      invariant ScanUrls(urls, guess, fetch).fetched == fetched + ScanUrls(urls[i..], guess, fetch).fetched
    {
      var url := urls[i];
      ScanUrlsAt(urls, i, guess, fetch);
      if IsMediaMime(guess(url)) {
        return Returned(true), fetched;
      }
      fetched := fetched + [url];
      match fetch(url) {
        case RequestError =>
          return Raised(RequestFailed(url)), fetched;
        case BodyReadError =>
        case Body(body) =>
          if HasEmbedTag(body) {
            return Returned(true), fetched;
          }
      }
      i := i + 1;
    }
    return Returned(false), fetched;
  }

  /** The rating reactions: up-vote, then down-vote, each after the delay. */
  function Rating(s: Settings): seq<Event> {
    [Sleep(ReactionDelayMs), React(s.upvote), Sleep(ReactionDelayMs), React(s.downvote)]
  }

  /** What one run of the listener does: its events, the URLs it fetched, and what it raised. */
  datatype HandlerRun = HandlerRun(events: seq<Event>, fetched: seq<string>, fault: Option<Fault>)

  predicate Eligible(cog: MediaRate, m: Snapshot) {
    cog.channelIds.Some? && m.channel in cog.channelIds.value
  }

  /** The listener `on_message`. */
  function Rate(cog: MediaRate, m: Snapshot, guess: MimeGuess, fetch: Fetcher): (r: HandlerRun)
    ensures !Eligible(cog, m) ==> r.events == [] && r.fetched == []
    ensures cog.channelIds.None? ==> r.fault == Some(AttributeError)
    ensures Eligible(cog, m) ==> r.fetched == Classify(cog, m, guess, fetch).fetched
    ensures cog.settings.None? ==> forall k :: 0 <= k < |r.events| ==> !r.events[k].React?
    ensures cog.settings.Some? ==>
              (r.events != [] <==> Eligible(cog, m) && Classify(cog, m, guess, fetch).outcome == Returned(true))
    ensures cog.settings.Some? && r.events != [] ==> r.events == Rating(cog.settings.value) && r.fault == None
    ensures Eligible(cog, m) && Classify(cog, m, guess, fetch).outcome.Raised? ==>
              r.events == [] && r.fault == Some(Classify(cog, m, guess, fetch).outcome.fault)
    ensures cog.channelIds.Some? && !Eligible(cog, m) ==> r.fault == None
    ensures Eligible(cog, m) && Classify(cog, m, guess, fetch).outcome == Returned(false) ==>
              r.events == [] && r.fault == None
    ensures cog.settings.None? && Eligible(cog, m) && Classify(cog, m, guess, fetch).outcome == Returned(true) ==>
              r.events == [Sleep(ReactionDelayMs)] && r.fault == Some(AttributeError)
  {
    if cog.channelIds.None? then HandlerRun([], [], Some(AttributeError))
    else if m.channel !in cog.channelIds.value then HandlerRun([], [], None)
    else
      var c := Classify(cog, m, guess, fetch);
      match c.outcome
      case Raised(f) => HandlerRun([], c.fetched, Some(f))
      case Returned(media) =>
        if !media then HandlerRun([], c.fetched, None)
        else if cog.settings.None? then HandlerRun([Sleep(ReactionDelayMs)], c.fetched, Some(AttributeError))
        else HandlerRun(Rating(cog.settings.value), c.fetched, None)
  }

  /** `on_message`, step by step. */
  method OnMessage(cog: MediaRate, m: Message, guess: MimeGuess, fetch: Fetcher) returns (run: HandlerRun)
    ensures run == Rate(cog, m.View(), guess, fetch)
  {
    if cog.channelIds.None? {
      return HandlerRun([], [], Some(AttributeError));
    }
    if m.channel !in cog.channelIds.value {
      return HandlerRun([], [], None);
    }
    var outcome, fetched := MessageHasMedia(cog, m, guess, fetch);
    var events: seq<Event> := [];
    match outcome {
      case Raised(f) =>
        return HandlerRun(events, fetched, Some(f));
      case Returned(media) =>
        if media {
          events := events + [Sleep(ReactionDelayMs)];
          if cog.settings.None? {
            return HandlerRun(events, fetched, Some(AttributeError));
          }
          events := events + [React(cog.settings.value.upvote)];
          events := events + [Sleep(ReactionDelayMs)];
          events := events + [React(cog.settings.value.downvote)];
        }
        return HandlerRun(events, fetched, None);
    }
  }
}
