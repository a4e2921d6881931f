/** The keyword responder cog (src/cogs/fun.py). */
module FunCog {
  import opened Strings
  import opened Discord

  const DefaultMorbEmoji := "\U{1F6A9}"

  /** The indicator words, checked in order. */
  const MorbIndicators: seq<string> := ["morb"]

  datatype Fun = Fun(morbEmoji: string)

  /** `Fun.__init__`: the configured `morb_emoji`, or the red flag when none is configured. */
  function NewFun(cfg: Config): (f: Fun)
    ensures cfg.morbEmoji.None? ==> f.morbEmoji == DefaultMorbEmoji
    ensures cfg.morbEmoji.Some? ==> f.morbEmoji == cfg.morbEmoji.value
  {
    Fun(cfg.morbEmoji.GetOr(DefaultMorbEmoji))
  }

  /** Some indicator occurs in the lower-cased content. */
  predicate MentionsMorb(content: string) {
    exists k :: 0 <= k < |MorbIndicators| && Contains(Lower(content), MorbIndicators[k])
  }

  /** Four characters from `i` spell `morb` in some mix of upper and lower case. */
  predicate SpellsMorbAt(s: string, i: nat) {
    && i + 4 <= |s|
    && (s[i] == 'm' || s[i] == 'M') && (s[i + 1] == 'o' || s[i + 1] == 'O')
    && (s[i + 2] == 'r' || s[i + 2] == 'R') && (s[i + 3] == 'b' || s[i + 3] == 'B')
  }

  lemma LowerWindow(s: string, i: nat)
    requires i <= |s|
    ensures "morb" <= Lower(s)[i..] <==> SpellsMorbAt(s, i)
  {
    var low := Lower(s);
    if i + 4 <= |s| {
      assert low[i..][..4] == [LowerChar(s[i]), LowerChar(s[i + 1]), LowerChar(s[i + 2]), LowerChar(s[i + 3])];
    }
  }

  /** The match ignores case: `morb` is found exactly when four characters spell it in any mix of cases. */
  lemma MorbIgnoresCase(content: string)
    ensures MentionsMorb(content) <==> exists i :: 0 <= i <= |content| && SpellsMorbAt(content, i)
  {
    var low := Lower(content);
    assert |MorbIndicators| == 1 && MorbIndicators[0] == "morb";
    assert MentionsMorb(content) <==> Contains(low, MorbIndicators[0]);
    forall i | 0 <= i <= |content|
      ensures "morb" <= low[i..] <==> SpellsMorbAt(content, i)
    {
      LowerWindow(content, i);
    }
  }

  /**
   * `morb_detector`: on the first indicator found, sleep and add the configured reaction once,
   * then stop looking.
   */
  method MorbDetector(fun: Fun, m: Message) returns (events: seq<Event>)
    ensures events == if MentionsMorb(m.content) then [Sleep(ReactionDelayMs), React(fun.morbEmoji)] else []
  {
    events := [];
    for i := 0 to |MorbIndicators|
      invariant events == []
      invariant forall j :: 0 <= j < i ==> !Contains(Lower(m.content), MorbIndicators[j])
    {
      if Contains(Lower(m.content), MorbIndicators[i]) {
        events := events + [Sleep(ReactionDelayMs)];
        events := events + [React(fun.morbEmoji)];
        break;
      }
    }
  }

  /** The listener `on_message`: every message goes to the detector, whatever its channel or author. */
  method OnMessage(fun: Fun, m: Message) returns (events: seq<Event>)
    ensures events == if MentionsMorb(m.content) then [Sleep(ReactionDelayMs), React(fun.morbEmoji)] else []
  {
    events := MorbDetector(fun, m);
  }
}
