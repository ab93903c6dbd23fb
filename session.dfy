/**
 * The game state of the truth-or-dare server as a value, the transition taken
 * for one inbound message, and the properties of runs of messages.
 * This is the specification the mutable server state in module Server is proved against.
 */
module Session {
  import opened Wrappers
  import opened Content

  /** The capacity the server starts with; no action changes it. */
  const MaxPlayers: int := 10

  /** A snapshot of the shared game record. */
  datatype State = State(
    players: seq<string>,
    currentPlayerIndex: int,
    gameStarted: bool,
    maxPlayers: int,
    choice: Option<string>,
    question: Option<string>,
    punishment: Option<string>)

  /** A decoded client message: the server reads `action`, and `name` or `choice` depending on it. */
  datatype Message = Message(action: string, name: string, choice: string)

  /** The state after one message, and whether the server broadcast it. */
  datatype Outcome = Outcome(state: State, broadcast: bool)

  /** The record as the server creates it at start-up. */
  function Initial(): (r: State)
    ensures Inv(r)
    ensures r.players == [] && r.currentPlayerIndex == 0 && !r.gameStarted
    ensures r.maxPlayers == MaxPlayers
    ensures r.choice == None && r.question == None && r.punishment == None
  {
    State([], 0, false, MaxPlayers, None, None, None)
  }

  predicate NoDuplicates(names: seq<string>)
  {
    forall i, j :: 0 <= i < j < |names| ==> names[i] != names[j]
  }

  /**
   * What every state reachable from Initial() satisfies. The started clause is
   * what keeps the modulo of `next` away from a zero divisor.
   */
  ghost predicate Inv(s: State)
  {
    && NoDuplicates(s.players)
    && |s.players| <= s.maxPlayers
    && (s.gameStarted ==> 2 <= |s.players| && 0 <= s.currentPlayerIndex < |s.players|)
    && (!s.gameStarted ==> s.currentPlayerIndex == 0 && s.choice == None && s.question == None)
    && (s.choice.Some? <==> s.question.Some?)
    && (s.choice.Some? ==> s.question.value in PoolFor(s.choice.value))
    && s.punishment == None
  }

  /** The random index supplied with a message is only constrained for `choose`. */
  predicate DrawFits(m: Message, draw: nat)
  {
    m.action == "choose" ==> draw < |PoolFor(m.choice)|
  }

  ghost predicate DrawsFit(msgs: seq<Message>, draws: seq<nat>)
  {
    |draws| == |msgs| && forall i :: 0 <= i < |msgs| ==> DrawFits(msgs[i], draws[i])
  }

  /** The guard of each action: a message is accepted (and broadcast) exactly when this holds. */
  predicate Accepted(s: State, m: Message)
    ensures m.action == "reset" ==> Accepted(s, m)
    ensures Accepted(s, m) ==> m.action in ["join", "start", "choose", "next", "reset"]
    ensures m.action in ["choose", "next"] ==> (Accepted(s, m) <==> s.gameStarted)
  {
    if m.action == "join" then m.name !in s.players && |s.players| < s.maxPlayers
    else if m.action == "start" then 2 <= |s.players| && !s.gameStarted
    else if m.action == "choose" || m.action == "next" then s.gameStarted
    else m.action == "reset"
  }

  /** The turn after `i` among `n` players: `(i + 1) % n`, defined only for a non-empty table. */
  function NextIndex(i: int, n: int): (r: int)
    requires 0 <= i < n
    ensures 0 <= r < n
    ensures r == if i + 1 < n then i + 1 else 0
  {
    (i + 1) % n
  }

  /** The record after `reset`: everything cleared except the capacity. */
  function Cleared(s: State): (r: State)
    ensures r.players == [] && r.currentPlayerIndex == 0 && !r.gameStarted
    ensures r.choice == None && r.question == None && r.punishment == None
    ensures r.maxPlayers == s.maxPlayers
  {
    s.(players := [], currentPlayerIndex := 0, gameStarted := false,
       choice := None, question := None, punishment := None)
  }

  /** One message handled by the server's `switch (data.action)`. */
  function Step(s: State, m: Message, draw: nat): (r: Outcome)
    requires Inv(s)
    requires DrawFits(m, draw)
    ensures Inv(r.state)
    ensures r.broadcast <==> Accepted(s, m)
    ensures !r.broadcast ==> r.state == s
    ensures r.state.maxPlayers == s.maxPlayers
  {
    if !Accepted(s, m) then
      Outcome(s, false)
    else if m.action == "join" then
      Outcome(s.(players := s.players + [m.name]), true)
    else if m.action == "start" then
      Outcome(s.(gameStarted := true, currentPlayerIndex := 0), true)
    else if m.action == "choose" then
      Outcome(s.(choice := Some(m.choice),
                 question := Some(GetRandomItem(PoolFor(m.choice), draw))), true)
    else if m.action == "next" then
      Outcome(s.(currentPlayerIndex := NextIndex(s.currentPlayerIndex, |s.players|),
                 choice := None, question := None, punishment := None), true)
    else
      Outcome(Cleared(s), true)
  }

  /** The state after the server has handled `msgs` in order, one at a time. */
  function Run(s: State, msgs: seq<Message>, draws: seq<nat>): (r: State)
    requires Inv(s)
    requires DrawsFit(msgs, draws)
    ensures Inv(r)
    ensures r.maxPlayers == s.maxPlayers
    decreases |msgs|
  {
    if msgs == [] then s
    else Run(Step(s, msgs[0], draws[0]).state, msgs[1..], draws[1..])
  }

  /** Every state the server can reach has unique names within capacity, and a valid turn while started. */
  lemma ReachableInvariant(msgs: seq<Message>, draws: seq<nat>)
    requires DrawsFit(msgs, draws)
    ensures Inv(Initial())
    ensures var r := Run(Initial(), msgs, draws);
      && NoDuplicates(r.players)
      && |r.players| <= MaxPlayers
      && r.maxPlayers == MaxPlayers
      && (r.gameStarted ==> 2 <= |r.players| && 0 <= r.currentPlayerIndex < |r.players|)
  {
  }

  /** A `reset` from any reachable state gives back exactly the start-up record. */
  lemma ResetRestoresInitial(msgs: seq<Message>, draws: seq<nat>, m: Message)
    requires DrawsFit(msgs, draws)
    requires m.action == "reset"
    ensures Inv(Initial())
    ensures Step(Run(Initial(), msgs, draws), m, 0).state == Initial()
  {
    ReachableInvariant(msgs, draws);
  }

  /** A positive multiple of `n` is at least `n`; it rules out a second quotient in ModUnique. */
  lemma {:induction false} MulAtLeast(k: int, n: int)
    requires 1 <= k && 0 < n
    ensures n <= k * n
    decreases k
  {
    if k > 1 {
      MulAtLeast(k - 1, n);
      assert k * n == (k - 1) * n + n;
    }
  }

  /** Euclidean division leaves one remainder: `x == q * n + r` with `0 <= r < n` fixes `x % n`. */
  lemma ModUnique(x: int, n: int, q: int, r: int)
    requires 0 < n && 0 <= r < n && x == q * n + r
    ensures x % n == r
  {
    var q', r' := x / n, x % n;
    assert x == q' * n + r';
    assert (q - q') * n == r' - r;
    if q > q' {
      MulAtLeast(q - q', n);
    } else if q < q' {
      MulAtLeast(q' - q, n);
    }
  }

  /** Reducing the left summand first does not change the sum's remainder; NextRotates uses it to join one step to the rest. */
  lemma ModAddLeft(a: int, b: int, n: int)
    requires 0 < n
    ensures (a % n + b) % n == (a + b) % n
  {
    var q := a / n;
    var t := a % n + b;
    assert a == q * n + a % n;
    ModUnique(t, n, t / n, t % n);
    ModUnique(a + b, n, q + t / n, t % n);
  }

  /**
   * `k` consecutive `next` messages in a started game move the turn `k` places
   * round the table, keep the players, and leave no pending prompt.
   */
  lemma {:induction false} NextRotates(s: State, msgs: seq<Message>, draws: seq<nat>)
    requires Inv(s) && s.gameStarted
    requires DrawsFit(msgs, draws)
    requires forall i :: 0 <= i < |msgs| ==> msgs[i].action == "next"
    ensures var r := Run(s, msgs, draws);
      && r.players == s.players
      && r.gameStarted
      && r.currentPlayerIndex == (s.currentPlayerIndex + |msgs|) % |s.players|
      && (msgs != [] ==> r.choice == None && r.question == None)
    decreases |msgs|
  {
    var n, i := |s.players|, s.currentPlayerIndex;
    if msgs == [] {
      ModUnique(i, n, 0, i);
    } else {
      assert msgs[0].action == "next";
      var s1 := Step(s, msgs[0], draws[0]).state;
      assert s1 == s.(currentPlayerIndex := NextIndex(i, n), choice := None, question := None, punishment := None);
      assert Run(s, msgs, draws) == Run(s1, msgs[1..], draws[1..]);
      NextRotates(s1, msgs[1..], draws[1..]);
      ModAddLeft(i + 1, |msgs| - 1, n);
    }
  }

  /** As many `next` messages as there are players bring the turn back to where it started. */
  lemma FullCycle(s: State, msgs: seq<Message>, draws: seq<nat>)
    requires Inv(s) && s.gameStarted
    requires DrawsFit(msgs, draws)
    requires forall i :: 0 <= i < |msgs| ==> msgs[i].action == "next"
    requires |msgs| == |s.players|
    ensures Run(s, msgs, draws).currentPlayerIndex == s.currentPlayerIndex
    ensures Run(s, msgs, draws).players == s.players
  {
    NextRotates(s, msgs, draws);
    ModUnique(s.currentPlayerIndex + |msgs|, |msgs|, 1, s.currentPlayerIndex);
  }

  /**
   * Two players join, the game starts, the first player picks truth, and two
   * `next` messages wrap the turn round a table of two.
   */
  lemma Scenario(draw: nat)
    requires draw < |TruthQuestions|
    ensures Inv(Initial())
    ensures
      var s1 := Step(Initial(), Message("join", "Ann", ""), 0).state;
      var s2 := Step(s1, Message("join", "Bo", ""), 0).state;
      var s3 := Step(s2, Message("start", "", ""), 0).state;
      var s4 := Step(s3, Message("choose", "", "truth"), draw).state;
      var s5 := Step(s4, Message("next", "", ""), 0).state;
      var s6 := Step(s5, Message("next", "", ""), 0).state;
      && s2.players == ["Ann", "Bo"]
      && s3.gameStarted && s3.currentPlayerIndex == 0
      && s4.choice == Some("truth") && s4.question.Some? && s4.question.value in TruthQuestions
      && s5.currentPlayerIndex == 1 && s5.choice == None && s5.question == None
      && s6.currentPlayerIndex == 0
      && !Step(s2, Message("join", "Ann", ""), 0).broadcast
  {
  }
}
