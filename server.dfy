/**
 * The server's single shared game record, changed in place by the message
 * handler. Each action is a method that returns whether the server would
 * broadcast the new state to every connection.
 */
module Server {
  import opened Wrappers
  import opened Content
  import opened Session

  class GameState {
    var players: seq<string>
    var currentPlayerIndex: int
    var gameStarted: bool
    var maxPlayers: int
    var choice: Option<string>
    var question: Option<string>
    var punishment: Option<string>

    /** The record as a value, the form the broadcast serialises. */
    function Snapshot(): State
      reads this
    {
      State(players, currentPlayerIndex, gameStarted, maxPlayers, choice, question, punishment)
    }

    ghost predicate Valid()
      reads this
    {
      Inv(Snapshot())
    }

    /** The record at process start. */
    constructor ()
      ensures Valid()
      ensures Snapshot() == Initial()
    {
      players := [];
      currentPlayerIndex := 0;
      gameStarted := false;
      maxPlayers := MaxPlayers;
      choice := None;
      question := None;
      punishment := None;
    }

    /** `join`: append an unseen name while below capacity; started or not, empty or not. */
    method Join(name: string) returns (broadcast: bool)
      requires Valid()
      modifies this`players
      ensures Valid()
      ensures broadcast <==> name !in old(players) && |old(players)| < maxPlayers
      ensures players == if broadcast then old(players) + [name] else old(players)
    {
      broadcast := false;
      if name !in players && |players| < maxPlayers {
        players := players + [name];
        broadcast := true;
      }
    }

    /** `start`: with two or more players and no game running, start at the first player. */
    method Start() returns (broadcast: bool)
      requires Valid()
      modifies this`gameStarted, this`currentPlayerIndex
      ensures Valid()
      ensures broadcast <==> 2 <= |players| && !old(gameStarted)
      ensures broadcast ==> gameStarted && currentPlayerIndex == 0
      ensures !broadcast ==> gameStarted == old(gameStarted) && currentPlayerIndex == old(currentPlayerIndex)
    {
      broadcast := false;
      if |players| >= 2 && !gameStarted {
        gameStarted := true;
        currentPlayerIndex := 0;
        broadcast := true;
      }
    }

    /**
     * `choose`: while started, record the choice and draw a prompt, from the truth
     * pool for "truth" and from the dare pool for any other value.
     */
    method Choose(c: string, draw: nat) returns (broadcast: bool)
      requires Valid()
      requires draw < |PoolFor(c)|
      modifies this`choice, this`question
      ensures Valid()
      ensures broadcast <==> gameStarted
      ensures broadcast ==> choice == Some(c) && question.Some?
      ensures broadcast && c == "truth" ==> question.value in TruthQuestions
      ensures broadcast && c != "truth" ==> question.value in DareActions
      ensures broadcast ==> question == Some(PoolFor(c)[draw])
      ensures !broadcast ==> choice == old(choice) && question == old(question)
    {
      broadcast := false;
      if gameStarted {
        choice := Some(c);
        if c == "truth" {
          question := Some(GetRandomItem(TruthQuestions, draw));
        } else {
          question := Some(GetRandomItem(DareActions, draw));
        }
        broadcast := true;
      }
    }

    /** `next`: while started, pass the turn on round the table and clear the prompt. */
    method Next() returns (broadcast: bool)
      requires Valid()
      modifies this`currentPlayerIndex, this`choice, this`question, this`punishment
      ensures Valid()
      ensures broadcast <==> gameStarted
      ensures broadcast ==> currentPlayerIndex == (old(currentPlayerIndex) + 1) % |players|
      ensures broadcast ==> choice == None && question == None && punishment == None
      ensures !broadcast ==> currentPlayerIndex == old(currentPlayerIndex) && choice == old(choice)
      ensures !broadcast ==> question == old(question) && punishment == old(punishment)
    {
      broadcast := false;
      if gameStarted {
        // Valid() gives |players| >= 2 here, so the divisor is never zero.
        currentPlayerIndex := (currentPlayerIndex + 1) % |players|;
        choice := None;
        question := None;
        punishment := None;
        broadcast := true;
      }
    }

    /** `reset`: always accepted; back to the empty lobby, capacity kept. */
    method Reset() returns (broadcast: bool)
      requires Valid()
      modifies this`players, this`currentPlayerIndex, this`gameStarted,
        this`choice, this`question, this`punishment
      ensures Valid()
      ensures broadcast
      ensures players == [] && currentPlayerIndex == 0 && !gameStarted
      ensures choice == None && question == None && punishment == None
    {
      players, currentPlayerIndex, gameStarted := [], 0, false;
      choice, question, punishment := None, None, None;
      broadcast := true;
    }

    /**
     * The message handler: dispatch on the message's action; an unknown action
     * changes nothing and is not broadcast.
     */
    method HandleMessage(m: Message, draw: nat) returns (broadcast: bool)
      requires Valid()
      requires DrawFits(m, draw)
      modifies this
      ensures Valid()
      ensures Snapshot() == Step(old(Snapshot()), m, draw).state
      ensures broadcast == Step(old(Snapshot()), m, draw).broadcast
    {
      if m.action == "join" {
        broadcast := Join(m.name);
      } else if m.action == "start" {
        broadcast := Start();
      } else if m.action == "choose" {
        broadcast := Choose(m.choice, draw);
      } else if m.action == "next" {
        broadcast := Next();
      } else if m.action == "reset" {
        broadcast := Reset();
      } else {
        broadcast := false;
      }
    }
  }
}
