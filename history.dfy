/** The bounded message history of a chat room. */
module History {

  /** `maxHistory` of every room (server/main.go:94). */
  const MaxHistory: nat := 100

  /** Reference definition: the newest `MaxHistory` entries of everything broadcast, oldest first. */
  function Window<T>(s: seq<T>): seq<T> {
    if |s| <= MaxHistory then s else s[|s| - MaxHistory..]
  }

  /** Append one message, then drop the front entry once the bound is exceeded. */
  function Appended<T>(history: seq<T>, m: T): (r: seq<T>)
    ensures |r| > 0 && r[|r| - 1] == m
    ensures r[..|r| - 1] == history || (history != [] && r[..|r| - 1] == history[1..])
    ensures |history| <= MaxHistory ==> |r| <= MaxHistory && r == Window(history + [m])
  {
    var s := history + [m];
    if |s| > MaxHistory then
      assert s[1..] == history[1..] + [m];
      assert |history| <= MaxHistory ==> s[1..] == s[|s| - MaxHistory..];
      s[1..]
    else
      assert s[..|s| - 1] == history;
      s
  }

  /** Windowing once per append is the same as windowing the whole sequence. */
  lemma {:induction false} WindowAppend<T>(s: seq<T>, m: T)
    ensures Window(Window(s) + [m]) == Window(s + [m])
  {
    if |s| > MaxHistory {
      var w := s[|s| - MaxHistory..];
      assert Window(w + [m]) == (w + [m])[1..];
      assert (w + [m])[1..] == s[|s| + 1 - MaxHistory..] + [m];
      assert (s + [m])[|s| + 1 - MaxHistory..] == s[|s| + 1 - MaxHistory..] + [m];
    }
  }

  /** A history that is the window of everything broadcast stays so after one more append. */
  lemma AppendedWindow<T>(all: seq<T>, m: T)
    ensures Appended(Window(all), m) == Window(all + [m])
  {
    WindowAppend(all, m);
  }

  /** After any sequence of broadcasts at most `MaxHistory` remain, and they are the newest ones. */
  lemma WindowKeepsNewest<T>(s: seq<T>)
    ensures |Window(s)| == if |s| <= MaxHistory then |s| else MaxHistory
    ensures forall i :: 0 <= i < |Window(s)| ==> Window(s)[i] == s[|s| - |Window(s)| + i]
  {
  }
}
