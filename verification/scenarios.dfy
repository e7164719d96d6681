/** Short sessions played through the Game class, each ending in what a player would
    see on the page. */
module Play {
  import opened Turns
  import Names
  import Timer

  /** Lets the whole attention window of the current turn pass, one second at a time:
      the expiry handler runs exactly once, at the fifteenth second. */
  method WaitOut(g: Game)
    requires g.Valid() && g.attention != null
    requires g.attention.State() == Timer.Begin(AttentionSeconds)
    modifies g, g.attention
    ensures g.Valid() && g.attention == old(g.attention)
    ensures g.attention.State() == Timer.Run(Timer.Begin(AttentionSeconds), AttentionSeconds)
    ensures !g.canShow && g.canAdvance && g.penaltyShown && g.penaltyKind == Some(Timeout)
    ensures g.players == old(g.players) && g.turn == old(g.turn) && g.lastCard == old(g.lastCard)
    ensures g.playing == old(g.playing) && g.badge == old(g.badge)
    ensures g.faceUp == old(g.faceUp) && g.face == old(g.face) && g.deckEndShown == old(g.deckEndShown)
  {
    var i := 0;
    while i < AttentionSeconds
      invariant 0 <= i <= AttentionSeconds
      invariant g.Valid() && g.attention == old(g.attention)
      invariant g.attention.State() == Timer.Run(Timer.Begin(AttentionSeconds), i)
      invariant g.players == old(g.players) && g.turn == old(g.turn) && g.lastCard == old(g.lastCard)
      invariant g.playing == old(g.playing) && g.badge == old(g.badge)
      invariant g.faceUp == old(g.faceUp) && g.face == old(g.face) && g.deckEndShown == old(g.deckEndShown)
      invariant i < AttentionSeconds ==>
        g.canShow == old(g.canShow) && g.canAdvance == old(g.canAdvance)
        && g.penaltyShown == old(g.penaltyShown) && g.penaltyKind == old(g.penaltyKind)
      invariant i == AttentionSeconds ==>
        !g.canShow && g.canAdvance && g.penaltyShown && g.penaltyKind == Some(Timeout)
    {
      Timer.ActiveUntilDeadline(AttentionSeconds, i);
      Timer.ActiveUntilDeadline(AttentionSeconds, i + 1);
      g.AttentionSecond();
      i := i + 1;
    }
  }

  /** Registers `names` in order into a fresh game, all of them already trimmed. */
  method Register(names: seq<string>) returns (g: Game)
    requires forall i :: 0 <= i < |names| ==> Names.Registrable(names[i])
    ensures fresh(g) && g.Valid() && g.players == names && g.turn == 0 && !g.playing && g.lastCard == None
  {
    g := new Game();
    var k := 0;
    while k < |names|
      invariant 0 <= k <= |names|
      invariant fresh(g) && g.Valid() && g.players == names[..k] && g.turn == 0 && !g.playing && g.lastCard == None
    {
      Names.RegistrableIffTrimmed(names[k]);
      g.AddPlayer(names[k]);
      assert names[..k + 1] == names[..k] + [names[k]];
      k := k + 1;
    }
  }

  /** Two players register; nobody shows a card during the first turn, so the
      inattention penalty appears, and the next turn belongs to the second player. */
  method TimeoutThenAdvance(a: string, b: string) returns (first: string, timedOut: bool, second: string)
    requires Names.Registrable(a) && Names.Registrable(b)
    ensures first == a && timedOut && second == b
  {
    var g := Register([a, b]);
    g.StartGame();
    first := g.badge;
    WaitOut(g);
    timedOut := g.penaltyShown && g.penaltyKind == Some(Timeout) && g.canAdvance && !g.canShow;
    g.Advance();
    second := g.badge;
  }

  /** The same key drawn on two consecutive turns: the first is shown, the second
      gives the repeat penalty and is not shown. */
  method RepeatedKey(a: string, b: string, key: string, text: string)
    returns (firstShown: Option<Card>, secondShown: bool, secondPenalty: Option<Penalty>)
    requires Names.Registrable(a) && Names.Registrable(b)
    ensures firstShown == Some(Card(key, text)) && !secondShown && secondPenalty == Some(Repeat)
  {
    var g := Register([a, b]);
    g.StartGame();
    g.ShowCard(Drawn(key, text));
    firstShown := if g.faceUp && !g.penaltyShown then g.face else None;
    g.Advance();
    g.ShowCard(Drawn(key, text));
    secondShown := g.faceUp;
    secondPenalty := if g.penaltyShown then g.penaltyKind else None;
  }

  /** A card shown in time does not stop the attention countdown, so when the
      window runs out the inattention penalty appears beside the revealed card. */
  method RevealThenTimeout(a: string, b: string, key: string, text: string)
    returns (shown: Option<Card>, penalty: Option<Penalty>)
    requires Names.Registrable(a) && Names.Registrable(b)
    ensures shown == Some(Card(key, text)) && penalty == Some(Timeout)
  {
    var g := Register([a, b]);
    g.StartGame();
    g.ShowCard(Drawn(key, text));
    WaitOut(g);
    shown := if g.faceUp then g.face else None;
    penalty := if g.penaltyShown then g.penaltyKind else None;
  }

  /** With three players, three advances from the first come back to the first,
      having passed through the other two in registration order. */
  method ThreeAdvances(a: string, b: string, c: string) returns (badges: seq<string>)
    requires Names.Registrable(a) && Names.Registrable(b) && Names.Registrable(c)
    ensures badges == [a, b, c, a]
  {
    var g := Register([a, b, c]);
    g.StartGame();
    badges := [g.badge];
    g.Advance();
    badges := badges + [g.badge];
    g.Advance();
    badges := badges + [g.badge];
    g.Advance();
    badges := badges + [g.badge];
  }
}
