/** The `MessageView` screen of the client: the message stays locked until
    the icon has been clicked three times; the third click unlocks it for
    the rest of the session, starts a burst of twenty falling theme emojis
    and sends the one scan request. */
module Reveal {
  import opened Common
  import Schema

  const ClickThreshold: nat := 3
  const IconCount: nat := 20

  /** The parts of a theme template the reveal logic uses. */
  datatype Template = Template(theme: Schema.Theme, pattern: string, emojis: seq<string>)

  function TemplateOf(t: Schema.Theme): (tpl: Template)
    ensures tpl.theme == t && |tpl.emojis| == 6
  {
    match t
    case Romantic =>
      Template(t, "\U{1F339}", ["\U{1F339}", "\U{1F495}", "\U{2764}\U{FE0F}", "\U{1F496}", "\U{1F49D}", "\U{1F497}"])
    case Friendship =>
      Template(t, "\U{1F31F}", ["\U{2B50}", "\U{1F31F}", "\U{2728}", "\U{1F4AB}", "\U{1F389}", "\U{1F38A}"])
    case Motivation =>
      Template(t, "\U{26A1}", ["\U{26A1}", "\U{1F4AA}", "\U{1F525}", "\U{1F680}", "\U{1F4AF}", "\U{1F3C6}"])
    case General =>
      Template(t, "\U{1F381}", ["\U{1F381}", "\U{1F388}", "\U{1F389}", "\U{1F38A}", "\U{2728}", "\U{1F49D}"])
  }

  /** The template for a message's theme key; an unknown key falls back to
      the `general` template. */
  function TemplateFor(key: string): (tpl: Template)
    ensures tpl == TemplateOf(tpl.theme) && |tpl.emojis| > 0
    ensures forall th: Schema.Theme :: Schema.ThemeName(th) == key ==> tpl.theme == th
    ensures (forall th: Schema.Theme :: Schema.ThemeName(th) != key) ==> tpl.theme == Schema.General
  {
    match Schema.ParseTheme(Some(key))
    case Some(t) => TemplateOf(t)
    case None => TemplateOf(Schema.General)
  }

  /** What of the component's state the click logic decides: the click
      count, the unlocked flag and how many scan requests have been sent. */
  datatype RevealState = RevealState(clickCount: nat, isUnlocked: bool, scansSent: nat)

  const Fresh: RevealState := RevealState(0, false, 0)

  /** One click on the lock icon. */
  function Click(s: RevealState): (s': RevealState)
    ensures s.isUnlocked ==> s' == s
    ensures !s.isUnlocked ==>
      && s'.clickCount == s.clickCount + 1
      && (s'.isUnlocked <==> s'.clickCount >= ClickThreshold)
      && s'.scansSent == s.scansSent + (if s'.isUnlocked then 1 else 0)
  {
    if s.isUnlocked then s
    else
      var newCount := s.clickCount + 1;
      if newCount >= ClickThreshold then RevealState(newCount, true, s.scansSent + 1)
      else RevealState(newCount, false, s.scansSent)
  }

  /** The states a session can be in. */
  predicate Consistent(s: RevealState)
  {
    && s.clickCount <= ClickThreshold
    && (s.isUnlocked <==> s.clickCount >= ClickThreshold)
    && s.scansSent == (if s.isUnlocked then 1 else 0)
  }

  /** `n` clicks, one after another. */
  function Clicks(s: RevealState, n: nat): RevealState
  {
    if n == 0 then s else Click(Clicks(s, n - 1))
  }

  lemma ClickIgnoredWhenUnlocked(s: RevealState)
    requires s.isUnlocked
    ensures Click(s) == s
  {
  }

  /** A locked click counts one more and unlocks exactly at the threshold. */
  lemma ClickWhileLocked(s: RevealState)
    requires !s.isUnlocked
    ensures Click(s).clickCount == s.clickCount + 1
    ensures Click(s).isUnlocked <==> s.clickCount + 1 >= ClickThreshold
    ensures Click(s).scansSent == s.scansSent + (if Click(s).isUnlocked then 1 else 0)
  {
  }

  lemma ClickKeepsConsistent(s: RevealState)
    requires Consistent(s)
    ensures Consistent(Click(s))
  {
  }

  /** Any run of clicks from a consistent state stays consistent. */
  lemma {:induction false} ClicksKeepConsistent(s: RevealState, n: nat)
    requires Consistent(s)
    ensures Consistent(Clicks(s, n))
  {
    if n > 0 {
      ClicksKeepConsistent(s, n - 1);
      ClickKeepsConsistent(Clicks(s, n - 1));
    }
  }

  /** After `n` clicks on a fresh view: the count stops at 3, the view is
      unlocked from the third click on, and exactly one scan request has been
      sent from then on (none before). */
  lemma {:induction false} ClicksFromFresh(n: nat)
    ensures Clicks(Fresh, n) == RevealState(Min(n, ClickThreshold), n >= ClickThreshold,
                                            if n >= ClickThreshold then 1 else 0)
  {
    if n > 0 {
      ClicksFromFresh(n - 1);
    }
  }

  /** `Math.max(0, 3 - clickCount)`. */
  function RemainingClicks(clickCount: nat): (r: nat)
    ensures r <= ClickThreshold
    ensures r == 0 <==> clickCount >= ClickThreshold
    ensures clickCount <= ClickThreshold ==> r + clickCount == ClickThreshold
  {
    if clickCount >= ClickThreshold then 0 else ClickThreshold - clickCount
  }

  function DigitString(n: nat): (s: string)
    requires n < 10
    ensures |s| == 1 && s[0] as int == '0' as int + n
  {
    [('0' as int + n) as char]
  }

  /** The countdown line shown once the icon has been clicked. */
  function CountdownLabel(remaining: nat): (line: string)
    requires remaining <= ClickThreshold
    ensures line == "Unlocking..." <==> remaining == 0
    ensures 's' in line <==> remaining > 1
    ensures remaining > 0 ==> |line| > 0 && line[0] as int == '0' as int + remaining
  {
    if remaining == 0 then "Unlocking..."
    else DigitString(remaining) + " more click" + (if remaining > 1 then "s" else "") + "!"
  }

  /** The instruction text of the locked view: the invitation before the
      first click, then the countdown. */
  function Prompt(clickCount: nat): (p: string)
    ensures p == "Click the icon to reveal your message" <==> clickCount == 0
    ensures 0 < clickCount < ClickThreshold ==>
      |p| > 0 && p[0] as int == '0' as int + (ClickThreshold - clickCount)
    ensures clickCount >= ClickThreshold ==> p == "Unlocking..."
  {
    if clickCount == 0 then "Click the icon to reveal your message"
    else CountdownLabel(RemainingClicks(clickCount))
  }

  /** While the view is locked fewer than three clicks have been made, so
      the `Unlocking...` text is never on screen. */
  lemma LockedPromptCountsDown(s: RevealState)
    requires Consistent(s) && !s.isUnlocked
    ensures Prompt(s.clickCount) != "Unlocking..."
    ensures s.clickCount > 0 ==> Prompt(s.clickCount)[0] as int == '0' as int + (ClickThreshold - s.clickCount)
  {
  }

  /** The three progress dots: dot `i` is filled when `i < clickCount`. */
  function Dots(clickCount: nat): (dots: seq<bool>)
    ensures |dots| == ClickThreshold
    ensures forall i :: 0 <= i < |dots| ==> (dots[i] <==> i < clickCount)
  {
    [0 < clickCount, 1 < clickCount, 2 < clickCount]
  }

  /** A falling icon; its random delay, duration and position are not modelled. */
  datatype Icon = Icon(id: nat, emoji: string)

  /** Twenty values of `Math.random()`, one per icon, each in [0, 1). */
  predicate ValidDraws(draws: seq<real>)
  {
    |draws| == IconCount && forall i :: 0 <= i < |draws| ==> 0.0 <= draws[i] < 1.0
  }

  /** `Math.floor(Math.random() * n)`. */
  function EmojiIndex(draw: real, n: nat): (i: nat)
    requires 0.0 <= draw < 1.0 && 0 < n
    ensures i < n
  {
    var x := draw * n as real;
    assert 0.0 <= x < n as real by {
      assert draw * n as real < 1.0 * n as real;
    }
    x.Floor
  }

  /** The twenty icons of one unlock: ids 0 to 19 in order, each showing one
      of the template's emojis chosen by its draw. */
  ghost predicate IsBurst(icons: seq<Icon>, tpl: Template, draws: seq<real>)
    requires ValidDraws(draws) && |tpl.emojis| > 0
  {
    && |icons| == IconCount
    && forall i :: 0 <= i < |icons| ==>
         icons[i].id == i && icons[i].emoji == tpl.emojis[EmojiIndex(draws[i], |tpl.emojis|)]
  }

  method MakeIcons(tpl: Template, draws: seq<real>) returns (icons: seq<Icon>)
    requires ValidDraws(draws) && |tpl.emojis| > 0
    ensures IsBurst(icons, tpl, draws)
  {
    icons := [];
    for i := 0 to IconCount
      invariant |icons| == i
      invariant forall j :: 0 <= j < i ==>
        icons[j].id == j && icons[j].emoji == tpl.emojis[EmojiIndex(draws[j], |tpl.emojis|)]
    {
      icons := icons + [Icon(i, tpl.emojis[EmojiIndex(draws[i], |tpl.emojis|)])];
    }
  }

  /** One mounted `MessageView`, from page load to page unload. */
  class MessageView {
    const messageId: string
    const template: Template
    var clickCount: nat
    var isUnlocked: bool
    var showConfetti: bool
    var fallingIcons: seq<Icon>
    /** The ids whose scan counter this session has asked to increment. */
    var scanRequests: seq<string>

    ghost function State(): RevealState
      reads this
    {
      RevealState(clickCount, isUnlocked, |scanRequests|)
    }

    ghost predicate Valid()
      reads this
    {
      && Consistent(State())
      && |template.emojis| > 0
      && scanRequests == (if isUnlocked then [messageId] else [])
      && (!isUnlocked ==> fallingIcons == [] && !showConfetti)
      && (isUnlocked ==> |fallingIcons| == IconCount)
    }

    constructor (id: string, themeKey: string)
      ensures Valid() && State() == Fresh
      ensures messageId == id && template == TemplateFor(themeKey)
      ensures fallingIcons == [] && !showConfetti
    {
      messageId := id;
      template := TemplateFor(themeKey);
      clickCount := 0;
      isUnlocked := false;
      showConfetti := false;
      fallingIcons := [];
      scanRequests := [];
    }

    /** `handleClick`; `draws` are the random values the burst would use. */
    method HandleClick(draws: seq<real>)
      requires Valid() && ValidDraws(draws)
      modifies this
      ensures Valid()
      ensures State() == Click(old(State()))
      ensures old(isUnlocked) || !isUnlocked ==>
        showConfetti == old(showConfetti) && fallingIcons == old(fallingIcons)
        && scanRequests == old(scanRequests)
      ensures !old(isUnlocked) && isUnlocked ==>
        showConfetti && IsBurst(fallingIcons, template, draws) && scanRequests == [messageId]
    {
      if isUnlocked {
        return;
      }
      var newCount := clickCount + 1;
      clickCount := newCount;
      if newCount >= ClickThreshold {
        isUnlocked := true;
        showConfetti := true;
        fallingIcons := MakeIcons(template, draws);
        scanRequests := scanRequests + [messageId];
      }
    }

    /** The timer that ends the burst. */
    method StopConfetti()
      requires Valid()
      modifies this
      ensures Valid() && !showConfetti
      ensures State() == old(State()) && fallingIcons == old(fallingIcons)
    {
      showConfetti := false;
    }
  }
}
