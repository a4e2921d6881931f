/**
 * The bot's own event handlers in src/main.py: the readiness flag, the owner's shutdown
 * command, the defusing of mass mentions, and the resolution of configured channels and roles.
 */
module Lifecycle {
  import opened Wrappers
  import opened Strings
  import opened Discord

  const Everyone := "@everyone"
  const EveryoneDefused := "@ everyone"
  const Here := "@here"
  const HereDefused := "@ here"
  const ShutdownToken := "/off"

  /** A mass mention: an `@` followed by a word that contains no `@` and does not start with a space. */
  predicate IsMention(q: string) {
    |q| >= 2 && q[0] == '@' && q[1] != ' ' && forall k :: 1 <= k < |q| ==> q[k] != '@'
  }

  /** A defused mention: an `@` followed by a space, and no further `@`. */
  predicate IsDefused(r: string) {
    |r| >= 2 && r[0] == '@' && r[1] == ' ' && forall k :: 1 <= k < |r| ==> r[k] != '@'
  }

  /** No mention starts inside a defused mention at the front of a text. */
  lemma NoMentionInsideDefused(r: string, rest: string, q: string, j: nat)
    requires IsDefused(r) && IsMention(q)
    ensures j < |r| ==> !(q <= (r + rest)[j..])
  {
    // at 0 the text reads "@ ", which no mention starts with; further inside there is no '@'
    assert forall k :: 0 <= k < |r| ==> (r + rest)[k] == r[k];
  }

  /**
   * A mention at the very front of the result, where the input does not start with `p`,
   * was already at the front of the input.
   */
  lemma MentionAtFrontWasThere(s: string, p: string, r: string, q: string)
    requires IsMention(p) && IsDefused(r) && IsMention(q)
    requires |p| <= |s| && !(p <= s) && q <= [s[0]] + Replace(s[1..], p, r)
    ensures q != p && Contains(s, q)
  {
    var rest := Replace(s[1..], p, r);
    assert q[1..] <= rest;
    PrefixSurvivesReplace(s[1..], p, r, q[1..]);
    assert q == [q[0]] + q[1..];
    assert s[0..] == s;
  }

  /**
   * Replacing a mention `p` by a defused form creates no mention: every mention `q` in the
   * result was already in the input, and `p` itself is gone.
   */
  lemma {:induction false} ReplaceAddsNoMention(s: string, p: string, r: string, q: string)
    requires IsMention(p) && IsDefused(r) && IsMention(q)
    ensures Contains(Replace(s, p, r), q) ==> q != p && Contains(s, q)
    decreases |s|
  {
    var t := Replace(s, p, r);
    if Contains(t, q) {
      var j :| 0 <= j <= |t| && q <= t[j..];
      if |s| < |p| {
        ContainsFits(s, q);
      } else if p <= s {
        var rest := Replace(s[|p|..], p, r);
        assert t == r + rest;
        NoMentionInsideDefused(r, rest, q, j);
        if j < |r| {
          assert false;
        } else {
          assert t[|r|..] == rest;
          OccurrenceInSuffix(t, |r|, j, q);
          ReplaceAddsNoMention(s[|p|..], p, r, q);
          ContainsOfSuffix(s, |p|, q);
        }
      } else {
        var rest := Replace(s[1..], p, r);
        assert t == [s[0]] + rest;
        if j == 0 {
          MentionAtFrontWasThere(s, p, r, q);
        } else {
          assert t[1..] == rest;
          OccurrenceInSuffix(t, 1, j, q);
          ReplaceAddsNoMention(s[1..], p, r, q);
          ContainsOfSuffix(s, 1, q);
        }
      }
    }
  }

  /** The content after `@everyone` and then `@here` have been defused. */
  function Sanitize(s: string): (t: string)
    ensures !Contains(t, Everyone) && !Contains(t, Here)
  {
    var once := Replace(s, Everyone, EveryoneDefused);
    ReplaceAddsNoMention(s, Everyone, EveryoneDefused, Everyone);
    var twice := Replace(once, Here, HereDefused);
    ReplaceAddsNoMention(once, Here, HereDefused, Everyone);
    ReplaceAddsNoMention(once, Here, HereDefused, Here);
    twice
  }

  /** Content that holds neither mass mention is left as it is. */
  lemma SanitizeKeepsCleanContent(s: string)
    requires !Contains(s, Everyone) && !Contains(s, Here)
    ensures Sanitize(s) == s
  {
    ReplaceWithoutOccurrence(s, Everyone, EveryoneDefused);
    ReplaceWithoutOccurrence(s, Here, HereDefused);
  }

  /** Sanitizing twice changes nothing more than sanitizing once. */
  lemma SanitizeIdempotent(s: string)
    ensures Sanitize(Sanitize(s)) == Sanitize(s)
  {
    SanitizeKeepsCleanContent(Sanitize(s));
  }

  /** The owner's shutdown command: the owner wrote a message whose lower-cased content starts with `/off`. */
  function IsShutdownCommand(author: UserId, owner: UserId, content: string): (r: bool)
    ensures r <==> author == owner && |content| >= 4 && content[0] == '/'
                   && content[1] in "oO" && content[2] in "fF" && content[3] in "fF"
  {
    author == owner && ShutdownToken <= Lower(content)
  }

  /** Calls the handlers of this file make on the client and the message. */
  datatype ClientCall = DeleteMessage | CloseClient | Logout | ProcessCommands(message: Snapshot)

  /** Resolving the channels fails when the guild is unknown and there is something to resolve. */
  predicate ConfigRaises(cfg: Config, g: Option<Guild>) {
    g.None? && (cfg.channelIds != map[] || cfg.roleIds != map[])
  }

  /** The process-wide bot state. */
  class Bot {
    const cfg: Config
    var ready: bool
    var guild: Option<Guild>
    var channels: map<string, Option<Channel>>
    var roles: map<string, Option<Role>>

    /** Every configured name is resolved to the guild's lookup of its configured id. */
    predicate Configured(g: Guild)
      reads this
    {
      && channels.Keys == cfg.channelIds.Keys
      && (forall n :: n in channels ==> channels[n] == g.GetChannel(cfg.channelIds[n]))
      && roles.Keys == cfg.roleIds.Keys
      && (forall n :: n in roles ==> roles[n] == g.GetRole(cfg.roleIds[n]))
    }

    /** `main`: the bot starts with its readiness flag cleared, before the client connects. */
    constructor Start(cfg: Config)
      ensures this.cfg == cfg && !ready
      ensures guild == None && channels == map[] && roles == map[]
    {
      this.cfg := cfg;
      ready := false;
      guild := None;
      channels := map[];
      roles := map[];
    }

    /**
     * `on_message`: nothing while not ready; the owner's shutdown command deletes the message
     * and closes the client; any other message has its mass mentions defused and is handed
     * to command processing once. `deleteRaises` says whether deleting the message fails.
     */
    method OnMessage(m: Message, deleteRaises: bool) returns (calls: seq<ClientCall>, fault: Option<Fault>)
      modifies m
      ensures fault == None
      ensures !ready ==> calls == [] && m.content == old(m.content)
      ensures ready && IsShutdownCommand(m.author, cfg.ownerId, old(m.content)) ==>
                calls == [DeleteMessage, CloseClient, Logout] && m.content == old(m.content)
      ensures ready && !IsShutdownCommand(m.author, cfg.ownerId, old(m.content)) ==>
                m.content == Sanitize(old(m.content)) && calls == [ProcessCommands(m.View())]
    {
      if !ready {
        return [], None;
      }
      if IsShutdownCommand(m.author, cfg.ownerId, m.content) {
        calls := [DeleteMessage];
        // the `finally` block runs whether or not the delete raised (`deleteRaises`),
        // and its `return` discards that exception, so the handler ends normally either way
        calls := calls + [CloseClient, Logout];
        return calls, None;
      }
      m.content := Replace(m.content, Everyone, EveryoneDefused);
      m.content := Replace(m.content, Here, HereDefused);
      calls := [ProcessCommands(m.View())];
      fault := None;
    }

    /**
     * `config`: looks up the guild `g` and rebuilds the channel and role maps from the
     * configured ids. Looking up a channel or role on a missing guild raises.
     */
    method Configure(g: Option<Guild>) returns (fault: Option<Fault>)
      modifies this
      ensures ready == old(ready) && guild == g
      ensures fault.Some? <==> ConfigRaises(cfg, g)
      ensures fault.Some? ==> fault == Some(AttributeError)
      ensures g.Some? ==> Configured(g.value)
      ensures g.None? ==> channels == map[]
      ensures g.None? ==> roles == if cfg.channelIds == map[] then map[] else old(roles)
    {
      guild := g;
      channels := map[];
      var pending := cfg.channelIds.Keys;
      while pending != {}
        invariant pending <= cfg.channelIds.Keys
        invariant g.None? ==> pending == cfg.channelIds.Keys
        invariant channels.Keys == cfg.channelIds.Keys - pending
        invariant forall n :: n in channels ==> g.Some? && channels[n] == g.value.GetChannel(cfg.channelIds[n])
        invariant ready == old(ready) && guild == g && roles == old(roles)
        decreases pending
      {
        var name :| name in pending;
        if g.None? {
          assert channels.Keys == {};
          return Some(AttributeError);
        }
        channels := channels[name := g.value.GetChannel(cfg.channelIds[name])];
        pending := pending - {name};
      }
      assert g.None? ==> channels.Keys == {};
      roles := map[];
      pending := cfg.roleIds.Keys;
      while pending != {}
        invariant pending <= cfg.roleIds.Keys
        invariant g.None? ==> pending == cfg.roleIds.Keys
        invariant roles.Keys == cfg.roleIds.Keys - pending
        invariant forall n :: n in roles ==> g.Some? && roles[n] == g.value.GetRole(cfg.roleIds[n])
        invariant ready == old(ready) && guild == g
        invariant g.Some? ==> channels.Keys == cfg.channelIds.Keys
        invariant forall n :: n in channels ==> g.Some? && channels[n] == g.value.GetChannel(cfg.channelIds[n])
        invariant g.None? ==> channels == map[] && cfg.channelIds == map[]
        decreases pending
      {
        var name :| name in pending;
        if g.None? {
          assert roles.Keys == {};
          return Some(AttributeError);
        }
        roles := roles[name := g.value.GetRole(cfg.roleIds[name])];
        pending := pending - {name};
      }
      fault := None;
    }

    /**
     * `on_ready`: resolves the configuration, then sets the readiness flag, then registers
     * the cogs (`postInitRaises` says whether that registration raises). Any failure closes
     * the client, logs out and raises.
     */
    method OnReady(g: Option<Guild>, postInitRaises: bool) returns (calls: seq<ClientCall>, fault: Option<Fault>)
      modifies this
      ensures guild == g
      ensures ConfigRaises(cfg, g) ==>
                ready == old(ready) && calls == [CloseClient, Logout] && fault == Some(StartupFailed)
      ensures !ConfigRaises(cfg, g) ==> ready
      ensures g.Some? ==> Configured(g.value)
      ensures g.None? ==> channels == map[]
      ensures g.None? ==> roles == if cfg.channelIds == map[] then map[] else old(roles)
      ensures !ConfigRaises(cfg, g) && postInitRaises ==>
                calls == [CloseClient, Logout] && fault == Some(StartupFailed)
      ensures !ConfigRaises(cfg, g) && !postInitRaises ==> calls == [] && fault == None
    {
      var configFault := Configure(g);
      if configFault.Some? {
        return [CloseClient, Logout], Some(StartupFailed);
      }
      ready := true;
      if postInitRaises {
        return [CloseClient, Logout], Some(StartupFailed);
      }
      return [], None;
    }
  }
}
