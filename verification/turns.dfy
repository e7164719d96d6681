/** The game page's turn logic: the registered players, whose turn it is, the key of
    the last card seen, and the state of the turn panel (which buttons can be used and
    which messages are visible), changed in place by the page's event handlers. */
module Turns {
  import Names
  import Timer

  datatype Option<T> = None | Some(value: T)

  /** What the card face shows: the card's key as its title and the challenge text. */
  datatype Card = Card(key: string, text: string)

  /** What a card draw gives back: a key with its challenge text, or an error message. */
  datatype Draw = Drawn(key: string, text: string) | Failed(message: string)

  /** The two texts the penalty message can hold. */
  datatype Penalty =
    | Timeout  // no card shown before the attention countdown ran out
    | Repeat   // the card drawn has the key of the previous one

  /** Length of the attention countdown, in seconds. */
  const AttentionSeconds: int := 15

  /** The error message that means the deck has run out. */
  const DeckEmpty: string := "MAZO_VACIO"

  /** The game cannot start with fewer players. */
  const MinPlayers: nat := 2

  /** The turn index after one advance among `n` players: the next player, and back
      to the first after the last. */
  function NextIndex(i: nat, n: nat): (r: nat)
    requires n > 0
    ensures r < n
    ensures i + 1 < n ==> r == i + 1
    ensures i + 1 == n ==> r == 0
  {
    (i + 1) % n
  }

  /** The turn index after `k` advances from index `i`. */
  function Rotate(i: nat, n: nat, k: nat): (r: nat)
    requires i < n
    ensures r < n
    decreases k
  {
    if k == 0 then i else NextIndex(Rotate(i, n, k - 1), n)
  }

  /** Within one round, `k` advances move the turn `k` places, wrapping past the end
      of the list at most once. */
  lemma {:induction false} RotateWithinRound(i: nat, n: nat, k: nat)
    requires i < n && k <= n
    ensures Rotate(i, n, k) == if i + k < n then i + k else i + k - n
  {
    if k > 0 {
      RotateWithinRound(i, n, k - 1);
    }
  }

  /** Advancing `a` times and then `b` times is advancing `a` + `b` times. */
  lemma {:induction false} RotateAdds(i: nat, n: nat, a: nat, b: nat)
    requires i < n
    ensures Rotate(i, n, a + b) == Rotate(Rotate(i, n, a), n, b)
  {
    if b > 0 {
      RotateAdds(i, n, a, b - 1);
    }
  }

  /** Starting from any player, `n` advances come back to that player, and no fewer
      advances do: every other player has a turn first. */
  lemma FullRound(i: nat, n: nat)
    requires i < n
    ensures Rotate(i, n, n) == i
    ensures forall k :: 0 < k < n ==> Rotate(i, n, k) != i
  {
    RotateWithinRound(i, n, n);
    forall k | 0 < k < n
      ensures Rotate(i, n, k) != i
    {
      RotateWithinRound(i, n, k);
    }
  }

  /** The turn order repeats with period `n`. */
  lemma Periodic(i: nat, n: nat, k: nat)
    requires i < n
    ensures Rotate(i, n, k + n) == Rotate(i, n, k)
  {
    RotateAdds(i, n, k, n);
    FullRound(Rotate(i, n, k), n);
  }

  /** The module-level state of the game page together with the turn panel. */
  class Game {
    /** The registered names, in registration order. */
    var players: seq<string>
    /** Index of the player whose turn it is. */
    var turn: nat
    /** Key of the last card drawn, if any. */
    var lastCard: Option<string>
    /** The game section is shown and the registration section hidden. */
    var playing: bool
    /** The name in the turn badge. */
    var badge: string
    /** The "show card" button is visible and enabled. */
    var canShow: bool
    /** The "next turn" button is visible. */
    var canAdvance: bool
    /** The penalty message is visible. */
    var penaltyShown: bool
    /** The text last written into the penalty message. */
    var penaltyKind: Option<Penalty>
    /** The end-of-deck message is visible. */
    var deckEndShown: bool
    /** The card is turned face up. */
    var faceUp: bool
    /** The title and text last written on the card. */
    var face: Option<Card>
    /** The attention countdown started by the latest turn; a later turn starts a new
        one without stopping it. */
    var attention: Timer.Countdown?

    /** Registered names are non-empty and trimmed, the turn index points into the list
        (or is zero), a game in progress has enough players and shows the current
        one, and while the card can still be shown the turn has had no outcome. */
    ghost predicate Valid()
      reads this
    {
      Seated()
      && (playing ==> MinPlayers <= |players| && badge == players[turn] && attention != null)
      && (canShow ==> !canAdvance && !penaltyShown && !deckEndShown && !faceUp)
    }

    /** The part of the invariant about the list and the index. */
    ghost predicate Seated()
      reads this
    {
      (forall i :: 0 <= i < |players| ==> Names.Registrable(players[i]))
      && (turn < |players| || turn == 0)
    }

    /** The page as loaded: registration shown, nobody registered, no card seen. */
    constructor ()
      ensures Valid()
      ensures players == [] && turn == 0 && lastCard == None && !playing && attention == null
      ensures !canShow && !canAdvance && !penaltyShown && !deckEndShown && !faceUp
      ensures penaltyKind == None && face == None
    {
      players := [];
      turn := 0;
      lastCard := None;
      playing := false;
      badge := "";
      canShow := false;
      canAdvance := false;
      penaltyShown := false;
      penaltyKind := None;
      deckEndShown := false;
      faceUp := false;
      face := None;
      attention := null;
    }

    /** The "add player" handler: the typed text is trimmed; an empty result is
        ignored, anything else is appended after the names already registered. */
    method AddPlayer(typed: string)
      requires Valid()
      modifies this
      ensures Valid()
      ensures var name := Names.Trim(typed);
        players == if name == [] then old(players) else old(players) + [name]
      ensures turn == old(turn) && lastCard == old(lastCard) && playing == old(playing)
      ensures unchanged(this`badge, this`canShow, this`canAdvance, this`penaltyShown,
        this`penaltyKind, this`deckEndShown, this`faceUp, this`face, this`attention)
    {
      var name := Names.Trim(typed);
      if name == [] {
        return;
      }
      players := players + [name];
    }

    /** The start of a turn: the panel is reset so that only "show card" can be used,
        the badge names the current player and a new attention countdown starts. The
        last card and the turn index are left alone. */
    method StartTurn()
      requires Seated() && turn < |players|
      requires playing ==> MinPlayers <= |players|
      modifies this
      ensures Valid()
      ensures players == old(players) && turn == old(turn) && lastCard == old(lastCard)
      ensures playing == old(playing) && penaltyKind == old(penaltyKind) && face == old(face)
      ensures canShow && !canAdvance && !penaltyShown && !deckEndShown && !faceUp
      ensures badge == players[turn]
      ensures fresh(attention) && attention.State() == Timer.Begin(AttentionSeconds)
    {
      penaltyShown := false;
      canShow := true;
      canAdvance := false;
      deckEndShown := false;
      faceUp := false;
      badge := players[turn];
      attention := new Timer.Countdown.Start(AttentionSeconds);
    }

    /** The "start game" handler: with fewer than two players nothing changes;
        otherwise the game section is shown and the turn of the player at the current
        index begins. */
    method StartGame()
      requires Valid()
      modifies this
      ensures Valid()
      ensures |old(players)| < MinPlayers ==> unchanged(this)
      ensures MinPlayers <= |old(players)| ==>
        playing && badge == players[turn]
        && canShow && !canAdvance && !penaltyShown && !deckEndShown && !faceUp
        && fresh(attention) && attention.State() == Timer.Begin(AttentionSeconds)
        && players == old(players) && turn == old(turn) && lastCard == old(lastCard)
        && penaltyKind == old(penaltyKind) && face == old(face)
    {
      if |players| < MinPlayers {
        return;
      }
      StartTurn();
      playing := true;
    }

    /** The "show card" handler, given what the draw returned. The button is disabled
        at once. A drawn key equal to the last one gives the repeat penalty instead of
        the challenge; any other key is shown face up with its text. Either way the
        key becomes the last card, "show card" is hidden and "next turn" appears. A
        failed draw changes nothing else, except that the deck-empty error shows the
        end-of-deck message. The attention countdown is not stopped. */
    method ShowCard(draw: Draw)
      requires Valid()
      modifies this
      ensures Valid()
      ensures !canShow
      ensures players == old(players) && turn == old(turn) && playing == old(playing)
      ensures badge == old(badge) && attention == old(attention)
      ensures draw.Drawn? ==>
        lastCard == Some(draw.key) && canAdvance && deckEndShown == old(deckEndShown)
      ensures draw.Drawn? && old(lastCard) == Some(draw.key) ==>
        penaltyShown && penaltyKind == Some(Repeat) && faceUp == old(faceUp) && face == old(face)
      ensures draw.Drawn? && old(lastCard) != Some(draw.key) ==>
        faceUp && face == Some(Card(draw.key, draw.text))
        && penaltyShown == old(penaltyShown) && penaltyKind == old(penaltyKind)
      ensures draw.Drawn? && old(canShow) ==> (faceUp <==> !penaltyShown)
      ensures draw.Failed? ==>
        lastCard == old(lastCard) && canAdvance == old(canAdvance)
        && penaltyShown == old(penaltyShown) && penaltyKind == old(penaltyKind)
        && faceUp == old(faceUp) && face == old(face)
        && deckEndShown == (old(deckEndShown) || draw.message == DeckEmpty)
    {
      canShow := false;
      match draw {
        case Drawn(key, text) =>
          if lastCard == Some(key) {
            penaltyKind := Some(Repeat);
            penaltyShown := true;
          } else {
            face := Some(Card(key, text));
            faceUp := true;
          }
          lastCard := Some(key);
          canAdvance := true;
        case Failed(message) =>
          if message == DeckEmpty {
            deckEndShown := true;
          }
      }
    }

    /** The attention countdown's expiry handler: "show card" is disabled, the
        inattention penalty is shown and "next turn" appears. It looks at nothing
        else, so it also runs after a card was already shown. */
    method AttentionExpired()
      requires Valid()
      modifies this
      ensures Valid()
      ensures !canShow && canAdvance && penaltyShown && penaltyKind == Some(Timeout)
      ensures players == old(players) && turn == old(turn) && lastCard == old(lastCard)
      ensures playing == old(playing) && badge == old(badge) && attention == old(attention)
      ensures deckEndShown == old(deckEndShown) && faceUp == old(faceUp) && face == old(face)
    {
      canShow := false;
      penaltyKind := Some(Timeout);
      penaltyShown := true;
      canAdvance := true;
    }

    /** One elapsed second of the latest attention countdown; when that second makes
        it expire, the expiry handler runs. */
    method AttentionSecond()
      requires Valid() && attention != null
      modifies this, attention
      ensures Valid()
      ensures attention == old(attention)
      ensures attention.State() == Timer.Elapse(old(attention.State()))
      ensures old(attention.active) && !attention.active ==>
        !canShow && canAdvance && penaltyShown && penaltyKind == Some(Timeout)
        && players == old(players) && turn == old(turn) && lastCard == old(lastCard)
        && playing == old(playing) && badge == old(badge)
        && deckEndShown == old(deckEndShown) && faceUp == old(faceUp) && face == old(face)
      ensures !(old(attention.active) && !attention.active) ==>
        unchanged(this)
    {
      var wasActive := attention.active;
      attention.Step();
      if wasActive && !attention.active {
        AttentionExpired();
      }
    }

    /** The "next turn" handler: the index moves to the next player, wrapping after
        the last, and a new turn starts. */
    method Advance()
      requires Valid() && players != []
      modifies this
      ensures Valid()
      ensures players == old(players) && lastCard == old(lastCard) && playing == old(playing)
      ensures penaltyKind == old(penaltyKind) && face == old(face)
      ensures turn == NextIndex(old(turn), |players|)
      ensures canShow && !canAdvance && !penaltyShown && !deckEndShown && !faceUp
      ensures badge == players[turn]
      ensures fresh(attention) && attention.State() == Timer.Begin(AttentionSeconds)
    {
      turn := NextIndex(turn, |players|);
      StartTurn();
    }

    /** The "back to registration" handler: registration is shown again with an empty
        list, the index back at zero and no last card. The turn panel and the
        attention countdown are left as they were. */
    method BackToRegistration()
      requires Valid()
      modifies this
      ensures Valid()
      ensures players == [] && turn == 0 && lastCard == None && !playing
      ensures unchanged(this`badge, this`canShow, this`canAdvance, this`penaltyShown,
        this`penaltyKind, this`deckEndShown, this`faceUp, this`face, this`attention)
    {
      playing := false;
      players := [];
      turn := 0;
      lastCard := None;
    }
  }
}
