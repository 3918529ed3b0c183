/**
 * The conversation loader's filter: reverse each parsed conversation to
 * oldest-first order, keep it only when it is between the owner and exactly
 * one other person, and name it after that person or after the next name of
 * the anonymisation pool.
 */
module Loader {

  import opened Wrappers
  import opened Timeline

  /** The distinct authors of a message list. */
  function Authors(ms: seq<Message>): set<string>
  {
    set i | 0 <= i < |ms| :: ms[i].author
  }

  /** get_thread_participants: adds each message's author to a set, one message at a time. */
  method ThreadParticipants(messages: seq<Message>) returns (participants: set<string>)
    ensures participants == Authors(messages)
  {
    participants := {};
    var i := 0;
    while i < |messages|
      invariant i <= |messages|
      invariant participants == Authors(messages[..i])
    {
      assert Authors(messages[..i + 1]) == Authors(messages[..i]) + {messages[i].author} by {
        assert messages[..i + 1] == messages[..i] + [messages[i]];
      }
      participants := participants + {messages[i].author};
      i := i + 1;
    }
    assert messages[..i] == messages;
  }

  function Reverse(ms: seq<Message>): seq<Message>
  {
    seq(|ms|, i requires 0 <= i < |ms| => ms[|ms| - 1 - i])
  }

  /** Reversing a conversation does not change who took part in it. */
  lemma ReverseKeepsAuthors(ms: seq<Message>)
    ensures Authors(Reverse(ms)) == Authors(ms)
  {
    var r := Reverse(ms);
    forall a | a in Authors(ms)
      ensures a in Authors(r)
    {
      var i :| 0 <= i < |ms| && ms[i].author == a;
      assert r[|ms| - 1 - i] == ms[i];
    }
  }

  /** The conversation is between `yourName` and exactly one other author. */
  predicate TwoParty(ms: seq<Message>, yourName: string)
  {
    |Authors(ms)| == 2 && yourName in Authors(ms)
  }

  /** The author of a two-party conversation who is not the owner. */
  ghost function Counterpart(ms: seq<Message>, yourName: string): (other: string)
    requires TwoParty(ms, yourName)
    ensures other in Authors(ms) && other != yourName
  {
    assert |Authors(ms) - {yourName}| == 1;
    var other :| other in Authors(ms) - {yourName};
    other
  }

  /** A two-party conversation has exactly one author besides the owner. */
  lemma CounterpartUnique(ms: seq<Message>, yourName: string, other: string)
    requires TwoParty(ms, yourName) && other in Authors(ms) && other != yourName
    ensures other == Counterpart(ms, yourName)
  {
    var rest := Authors(ms) - {yourName};
    assert |rest| == 1;
    assert |rest - {other}| == 0;
  }

  /** There are never more distinct authors than messages. */
  lemma {:induction false} AuthorsAtMostMessages(ms: seq<Message>)
    ensures |Authors(ms)| <= |ms|
  {
    if ms != [] {
      var init := ms[..|ms| - 1];
      AuthorsAtMostMessages(init);
      assert Authors(ms) == Authors(init) + {ms[|ms| - 1].author} by {
        assert ms == init + [ms[|ms| - 1]];
      }
    }
  }

  /** A kept conversation has at least two messages, so its first and last messages exist. */
  lemma TwoPartyHasMessages(ms: seq<Message>, yourName: string)
    requires TwoParty(ms, yourName)
    ensures |ms| >= 2
  {
    AuthorsAtMostMessages(ms);
  }

  /** The conversations the loader keeps, each in oldest-first order, in input order. */
  function KeptConvos(convos: seq<seq<Message>>, yourName: string): (kept: seq<seq<Message>>)
    ensures |kept| <= |convos|
    ensures forall k :: 0 <= k < |kept| ==> TwoParty(kept[k], yourName)
  {
    if convos == [] then []
    else
      var ms := Reverse(convos[|convos| - 1]);
      KeptConvos(convos[..|convos| - 1], yourName) + (if TwoParty(ms, yourName) then [ms] else [])
  }

  /** Every kept conversation is some input conversation, reversed. */
  lemma {:induction false} KeptConvosFromInput(convos: seq<seq<Message>>, yourName: string)
    ensures forall k :: 0 <= k < |KeptConvos(convos, yourName)| ==>
      Reverse(KeptConvos(convos, yourName)[k]) in convos
  {
    if convos != [] {
      var init := convos[..|convos| - 1];
      var last := convos[|convos| - 1];
      KeptConvosFromInput(init, yourName);
      assert Reverse(Reverse(last)) == last;
      forall c | c in init ensures c in convos { }
    }
  }

  /** The loader's step: one more conversation appends its reversal when it is two-party, and nothing otherwise. */
  lemma KeptConvosStep(convos: seq<seq<Message>>, i: nat, yourName: string)
    requires i < |convos|
    ensures var ms := Reverse(convos[i]);
      KeptConvos(convos[..i + 1], yourName) ==
      KeptConvos(convos[..i], yourName) + (if TwoParty(ms, yourName) then [ms] else [])
  {
    var seen := convos[..i + 1];
    assert seen[..|seen| - 1] == convos[..i] && seen[|seen| - 1] == convos[i];
  }

  /** Looking at more conversations only appends to what is kept. */
  lemma {:induction false} KeptConvosPrefix(convos: seq<seq<Message>>, j: nat, yourName: string)
    requires j <= |convos|
    ensures KeptConvos(convos[..j], yourName) <= KeptConvos(convos, yourName)
  {
    if j < |convos| {
      var init := convos[..|convos| - 1];
      assert convos[..j] == init[..j];
      KeptConvosPrefix(init, j, yourName);
    } else {
      assert convos[..j] == convos;
    }
  }

  /** The threads `loaded` are the conversations `kept`, named as the loader names them. */
  ghost predicate NamedAsLoaded(loaded: seq<Thread>, kept: seq<seq<Message>>, yourName: string,
                                useRandomNames: bool, randomNames: seq<string>)
  {
    && |loaded| == |kept|
    && (useRandomNames ==> |loaded| <= |randomNames|)
    && forall k :: 0 <= k < |loaded| ==>
         && loaded[k].messages == kept[k]
         && TwoParty(kept[k], yourName)
         && loaded[k].name == (if useRandomNames then randomNames[k] else Counterpart(kept[k], yourName))
  }

  lemma NamedAsLoadedAppend(loaded: seq<Thread>, kept: seq<seq<Message>>, yourName: string,
                            useRandomNames: bool, randomNames: seq<string>, t: Thread)
    requires NamedAsLoaded(loaded, kept, yourName, useRandomNames, randomNames)
    requires TwoParty(t.messages, yourName)
    requires useRandomNames ==> |loaded| < |randomNames| && t.name == randomNames[|loaded|]
    requires !useRandomNames ==> t.name == Counterpart(t.messages, yourName)
    ensures NamedAsLoaded(loaded + [t], kept + [t.messages], yourName, useRandomNames, randomNames)
  {
  }

  /**
   * The participant test of load_threads for one conversation: the other
   * author when the conversation is between `yourName` and exactly one other
   * author, and nothing otherwise.
   */
  method OtherParticipant(messages: seq<Message>, yourName: string) returns (other: Option<string>)
    ensures other.Some? <==> TwoParty(messages, yourName)
    ensures other.Some? ==> other.value == Counterpart(messages, yourName)
  {
    var participants := ThreadParticipants(messages);
    if |participants| != 2 || yourName !in participants {
      return None;
    }
    participants := participants - {yourName};
    assert |participants| == 1;
    var name :| name in participants;
    CounterpartUnique(messages, yourName, name);
    other := Some(name);
  }

  /**
   * The participant filter of load_threads. A conversation is kept iff it has
   * exactly two distinct authors, one of them `yourName`; the kept thread is
   * named after the other author, or, when anonymising, after the next unused
   * name of the pool (the counter moves only for kept threads). Running out of
   * pool names raises IndexError in the source: here the result is None.
   */
  method LoadThreads(convos: seq<seq<Message>>, yourName: string, useRandomNames: bool, randomNames: seq<string>)
    returns (threads: Option<seq<Thread>>)
    ensures threads.None? <==> useRandomNames && |randomNames| < |KeptConvos(convos, yourName)|
    ensures threads.Some? ==>
      NamedAsLoaded(threads.value, KeptConvos(convos, yourName), yourName, useRandomNames, randomNames)
  {
    var loaded: seq<Thread> := [];
    ghost var kept: seq<seq<Message>> := [];
    var randomNameCounter := 0;
    var i := 0;
    while i < |convos|
      invariant i <= |convos|
      invariant randomNameCounter == (if useRandomNames then |loaded| else 0)
      invariant kept == KeptConvos(convos[..i], yourName)
      invariant NamedAsLoaded(loaded, kept, yourName, useRandomNames, randomNames)
    {
      KeptConvosStep(convos, i, yourName);
      var messages := Reverse(convos[i]);
      var counterpart := OtherParticipant(messages, yourName);
      if counterpart.None? {
        i := i + 1;
        continue;
      }
      var other := counterpart.value;
      if useRandomNames {
        if randomNameCounter >= |randomNames| {
          KeptConvosPrefix(convos, i + 1, yourName);
          return None;
        }
        other := randomNames[randomNameCounter];
        randomNameCounter := randomNameCounter + 1;
      }
      NamedAsLoadedAppend(loaded, kept, yourName, useRandomNames, randomNames, Thread(other, messages));
      loaded := loaded + [Thread(other, messages)];
      kept := kept + [messages];
      i := i + 1;
    }
    assert convos[..i] == convos;
    threads := Some(loaded);
  }
}
