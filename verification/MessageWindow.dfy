/** The pruning window of the tool-call loop, for messages of any type. */
module MessageWindow {
  import opened PyLists

  /** Keeps the first message and the last `keep`. */
  function Prune<T>(messages: seq<T>, keep: int): seq<T> {
    if |messages| <= keep + 1 || messages == [] then messages else messages[..1] + Tail(messages, keep)
  }

  /**
   For a positive window, pruning keeps the first message and the tail of the others, so never more than `keep` + 1.
   */
  lemma PruneShape<T>(messages: seq<T>, keep: int)
    requires messages != [] && keep >= 1
    ensures Prune(messages, keep) == [messages[0]] + Tail(messages[1..], keep)
    ensures |Prune(messages, keep)| == if |messages| <= keep + 1 then |messages| else keep + 1
  {
    var n, rest := |messages|, messages[1..];
    if n > keep + 1 {
      assert rest[n - 1 - keep..] == messages[n - keep..];
    } else {
      assert Tail(rest, keep) == rest;
    }
  }

  /** With a window of at least two, pruning keeps the last two messages, at the end. */
  lemma PruneKeepsLastTwo<T>(before: seq<T>, said: T, answer: T, keep: int)
    requires keep >= 2
    ensures var seen := Prune(before + [said] + [answer], keep);
      |seen| >= 2 && seen[|seen| - 2] == said && seen[|seen| - 1] == answer
  {
    var all := before + [said] + [answer];
    if |all| > keep + 1 {
      assert Tail(all, keep) == all[|all| - keep..];
    }
  }

  /** Pruning, appending and pruning again is appending and pruning once. */
  lemma PruneAppend<T>(messages: seq<T>, more: seq<T>, keep: int)
    requires messages != [] && keep >= 1
    ensures Prune(Prune(messages, keep) + more, keep) == Prune(messages + more, keep)
  {
    var pruned := Prune(messages, keep);
    PruneShape(messages, keep);
    var rest := Tail(messages[1..], keep);
    var left, right := pruned + more, messages + more;
    assert left[0] == right[0] == messages[0];
    assert left[1..] == rest + more;
    assert right[1..] == messages[1..] + more;
    PruneShape(left, keep);
    PruneShape(right, keep);
    TailAppend(messages[1..], more, keep);
  }

  /** The messages after `n` turns, if each turn first prunes and then appends. */
  function Windowed<T>(messages: seq<T>, turns: nat -> seq<T>, n: nat, keep: int): seq<T> {
    if n == 0 then messages else Prune(Windowed(messages, turns, n - 1, keep), keep) + turns(n - 1)
  }

  /** The messages after `n` turns, if nothing is ever pruned. */
  function Unpruned<T>(messages: seq<T>, turns: nat -> seq<T>, n: nat): (whole: seq<T>)
    ensures |whole| >= |messages|
  {
    if n == 0 then messages else Unpruned(messages, turns, n - 1) + turns(n - 1)
  }

  lemma {:induction false} UnprunedKeepsStart<T>(messages: seq<T>, turns: nat -> seq<T>, n: nat)
    ensures var h := Unpruned(messages, turns, n);
      |messages| <= |h| && h[..|messages|] == messages
  {
    if n > 0 {
      UnprunedKeepsStart(messages, turns, n - 1);
    }
  }

  /** Lists that prune alike still prune alike after another turn. */
  lemma PruneThenTurn<T>(pruned: seq<T>, whole: seq<T>, turn: seq<T>, keep: int)
    requires whole != [] && keep >= 1 && Prune(pruned, keep) == Prune(whole, keep)
    ensures Prune(Prune(pruned, keep) + turn, keep) == Prune(whole + turn, keep)
  {
    PruneAppend(whole, turn, keep);
  }

  /** Pruning every turn and appending leaves, once pruned, exactly what pruning the whole history once would. */
  lemma {:induction false} PruningIsOneShot<T>(messages: seq<T>, turns: nat -> seq<T>, n: nat, keep: int)
    requires messages != [] && keep >= 1
    ensures Prune(Windowed(messages, turns, n, keep), keep) == Prune(Unpruned(messages, turns, n), keep)
  {
    if n > 0 {
      PruningIsOneShot(messages, turns, n - 1, keep);
      PruneThenTurn(Windowed(messages, turns, n - 1, keep), Unpruned(messages, turns, n - 1), turns(n - 1), keep);
    }
  }

  /** With a zero window Python's slice keeps everything, and pruning repeats the first message. */
  lemma ZeroWindowGrows<T>(messages: seq<T>)
    requires |messages| >= 2
    ensures Prune(messages, 0) == [messages[0]] + messages
  {
    assert messages[0..] == messages;
  }

  /** The window is a bound for every positive setting, and for no other except on a list of one message. */
  lemma PruneIsBounded<T>(messages: seq<T>, keep: int)
    requires messages != []
    ensures |Prune(messages, keep)| <= keep + 1 <==> keep >= 1 || (keep == 0 && |messages| == 1)
  {
    if keep >= 1 {
      PruneShape(messages, keep);
    } else if keep == 0 && |messages| >= 2 {
      ZeroWindowGrows(messages);
    }
  }
}
