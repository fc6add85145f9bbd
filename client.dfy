/** The interactive client's reading of one input line: which request it sends,
    or which local outcome it reports. The network calls and the printing of
    replies are not part of this model. */
module Client {
  import opened Common
  import opened Text

  /** The outcome of one input line. `InvalidCount` stands for "Invalid number
      format for count" and `InvalidFormat` for "Invalid command format"; neither
      sends a request. */
  datatype Command =
    | ListTickers
    | Quit
    | Stats(ticker: string)
    | MultiplePrices(ticker: string, count: i32)
    | InvalidCount
    | SinglePrice(ticker: string)
    | InvalidFormat

  /** The command match of the client loop, arm by arm: the exact keywords
      first, then the "stats " prefix, then the whitespace-separated tokens. */
  function Classify(command: string): (c: Command)
    ensures c.ListTickers? <==> command == "list"
    ensures c.Quit? <==> command == "quit" || command == "exit"
    ensures c.Stats? ==> StartsWith(command, "stats ") && c.ticker == command[6..]
    ensures c.MultiplePrices? || c.InvalidCount? ==> |SplitWhitespace(command)| == 2
    ensures c.MultiplePrices? ==>
      SplitWhitespace(command)[0] == c.ticker && ParseI32(SplitWhitespace(command)[1]) == Some(c.count)
    ensures c.InvalidCount? ==> ParseI32(SplitWhitespace(command)[1]).None?
    ensures c.SinglePrice? ==> SplitWhitespace(command) == [c.ticker]
    ensures c.InvalidFormat? ==> |SplitWhitespace(command)| != 1 && |SplitWhitespace(command)| != 2
  {
    if command == "list" then ListTickers
    else if command == "quit" || command == "exit" then Quit
    else if StartsWith(command, "stats ") then Stats(command[|"stats "|..])
    else
      var parts := SplitWhitespace(command);
      if |parts| == 2 then
        match ParseI32(parts[1])
        case Some(count) => MultiplePrices(parts[0], count)
        case None => InvalidCount
      else if |parts| == 1 then SinglePrice(parts[0])
      else InvalidFormat
  }

  /** Only "quit" and "exit" end the loop. */
  function EndsSession(c: Command): bool
  {
    c.Quit?
  }

  /** A word that is none of the keywords. */
  predicate IsPlainWord(w: string)
  {
    IsWord(w) && w != "list" && w != "quit" && w != "exit"
  }

  lemma ClassifyKeywords()
    ensures Classify("list") == ListTickers
    ensures Classify("quit") == Quit && Classify("exit") == Quit
    ensures EndsSession(Classify("quit")) && EndsSession(Classify("exit"))
    ensures !EndsSession(Classify("list"))
  {
  }

  /** Everything after "stats " is the requested symbol, verbatim: spaces,
      case and all. */
  lemma ClassifyStats(rest: string)
    ensures Classify("stats " + rest) == Stats(rest)
  {
    var command := "stats " + rest;
    assert command[..6] == "stats ";
    assert command != "list" && command != "quit" && command != "exit" by {
      assert |command| >= 6;
    }
  }

  /** A line with a word containing whitespace is not a keyword. */
  lemma NotKeywordWithSpace(s: string, i: nat)
    requires i < |s| && IsWhitespace(s[i])
    ensures s != "list" && s != "quit" && s != "exit"
  {
  }

  /** A number printed after a symbol, separated by a space, is a request for
      that many prices of that symbol (unless the symbol is "stats", which
      makes the line a stats request). */
  lemma ClassifyMultiple(t: string, n: i32)
    requires IsWord(t) && t != "stats"
    ensures Classify(t + " " + IntToString(n as int)) == MultiplePrices(t, n)
  {
    var c := IntToString(n as int);
    assert IsWord(c) by {
      if n < 0 {
        assert c[1..] == NatToString(-(n as int));
      }
    }
    var command := t + " " + c;
    assert Join([t, c], " ") == command by {
      assert [t, c][1..] == [c];
    }
    SplitJoinRoundTrip([t, c]);
    ParseI32RoundTrip(n);
    assert command[|t|] == ' ';
    NotKeywordWithSpace(command, |t|);
    if StartsWith(command, "stats ") {
      StatsPrefixOfWord(t, c);
    }
  }

  /** A word followed by a space cannot begin with "stats " unless it is "stats". */
  lemma StatsPrefixOfWord(t: string, rest: string)
    requires IsWord(t) && StartsWith(t + " " + rest, "stats ")
    ensures t == "stats"
  {
    var s := t + " " + rest;
    assert WordLength(s) == |t| by {
      assert s[|t|] == ' ';
      assert forall i :: 0 <= i < |t| ==> s[i] == t[i];
    }
    assert WordLength(s) == 5 by {
      assert s[..6] == "stats ";
      assert s[0] == 's' && s[1] == 't' && s[2] == 'a' && s[3] == 't' && s[4] == 's' && s[5] == ' ';
      assert forall i :: 0 <= i < 5 ==> !IsWhitespace(s[i]);
    }
    assert t == s[..5];
  }

  /** Two tokens whose second is not an i32 report a bad count and send nothing. */
  lemma ClassifyBadCount(t: string, c: string)
    requires IsWord(t) && t != "stats" && IsWord(c) && ParseI32(c).None?
    ensures Classify(t + " " + c) == InvalidCount
  {
    var command := t + " " + c;
    assert Join([t, c], " ") == command by {
      assert [t, c][1..] == [c];
    }
    SplitJoinRoundTrip([t, c]);
    assert command[|t|] == ' ';
    NotKeywordWithSpace(command, |t|);
    if StartsWith(command, "stats ") {
      StatsPrefixOfWord(t, c);
    }
  }

  /** A single word that is not a keyword asks for one price of that word, so
      "stats" alone is a price request. */
  lemma ClassifySingle(t: string)
    requires IsPlainWord(t)
    ensures Classify(t) == SinglePrice(t)
    ensures Classify("stats") == SinglePrice("stats")
  {
    WordThenRest(t, "");
    WordThenRest("stats", "");
    WordLacksStatsPrefix(t);
  }

  /** "stats " ends in a space, so no word starts with it. */
  lemma WordLacksStatsPrefix(t: string)
    requires IsWord(t)
    ensures !StartsWith(t, "stats ")
  {
    if |t| >= 6 {
      assert t[..6][5] == t[5];
      assert !IsWhitespace(t[5]);
    }
  }

  /** Three or more words, or none at all, are an invalid command. */
  lemma ClassifyInvalidFormat(ws: seq<string>)
    requires |ws| >= 3 && ws[0] != "stats"
    requires forall i :: 0 <= i < |ws| ==> IsWord(ws[i])
    ensures Classify(Join(ws, " ")) == InvalidFormat
    ensures Classify("") == InvalidFormat && Classify(" ") == InvalidFormat
  {
    var command := Join(ws, " ");
    var rest := Join(ws[1..], " ");
    assert command == ws[0] + " " + rest;
    SplitJoinRoundTrip(ws);
    assert command[|ws[0]|] == ' ';
    NotKeywordWithSpace(command, |ws[0]|);
    if StartsWith(command, "stats ") {
      StatsPrefixOfWord(ws[0], rest);
    }
    assert SplitWhitespace(" ") == [] by {
      assert " "[1..] == [];
    }
  }

  /** A line of whitespace alone, the empty line included, is an invalid command. */
  lemma ClassifyBlank(s: string)
    requires forall i :: 0 <= i < |s| ==> IsWhitespace(s[i])
    ensures Classify(s) == InvalidFormat
  {
    if s != [] {
      assert IsWhitespace(s[0]);
      assert !StartsWith(s, "stats ") by {
        if |s| >= 6 {
          assert s[..6][0] == s[0];
        }
      }
    }
    BlankSplitsToNothing(s);
  }

  lemma {:induction false} BlankSplitsToNothing(s: string)
    requires forall i :: 0 <= i < |s| ==> IsWhitespace(s[i])
    ensures SplitWhitespace(s) == []
  {
    if s != [] {
      BlankSplitsToNothing(s[1..]);
    }
  }

  // ---------------------------------------------------------------------------
  // The token arms, for any line and any spelling of the count

  /** Each keyword is one token. */
  lemma KeywordsAreOneToken()
    ensures SplitWhitespace("list") == ["list"]
    ensures SplitWhitespace("quit") == ["quit"]
    ensures SplitWhitespace("exit") == ["exit"]
  {
    WordIsOneToken("list");
    WordIsOneToken("quit");
    WordIsOneToken("exit");
  }

  lemma WordIsOneToken(w: string)
    requires IsWord(w)
    ensures SplitWhitespace(w) == [w]
  {
    assert WordLength(w) == |w|;
    assert w[..|w|] == w && w[|w|..] == [];
  }

  /** A line starting with "stats " has "stats" as its first token. */
  lemma StatsPrefixFirstToken(s: string)
    requires StartsWith(s, "stats ")
    ensures SplitWhitespace(s) != [] && SplitWhitespace(s)[0] == "stats"
  {
    assert s[..6] == "stats ";
    assert s[0] == 's' && s[1] == 't' && s[2] == 'a' && s[3] == 't' && s[4] == 's' && s[5] == ' ';
    assert WordLength(s) == 5 by {
      assert forall i :: 0 <= i < 5 ==> !IsWhitespace(s[i]);
      assert IsWhitespace(s[5]);
    }
    assert s[..5] == "stats";
  }

  /** Any line whose tokens are a symbol other than "stats" and a count: the
      count is parsed as `parse::<i32>` reads it (a sign, leading zeros, any
      whitespace between), and the line asks for that many prices, or reports
      a bad count. */
  lemma ClassifyTwoTokens(command: string, t: string, c: string)
    requires SplitWhitespace(command) == [t, c] && t != "stats"
    ensures ParseI32(c).Some? ==> Classify(command) == MultiplePrices(t, ParseI32(c).value)
    ensures ParseI32(c).None? ==> Classify(command) == InvalidCount
  {
    KeywordsAreOneToken();
    if StartsWith(command, "stats ") {
      StatsPrefixFirstToken(command);
    }
  }

  /** Any line with one token, other than the bare keywords and a line starting
      with "stats ", asks for one price of that token; a keyword with whitespace
      around it (" list") is such a line. */
  lemma ClassifyOneToken(command: string, t: string)
    requires SplitWhitespace(command) == [t]
    requires command != "list" && command != "quit" && command != "exit"
    requires !StartsWith(command, "stats ")
    ensures Classify(command) == SinglePrice(t)
  {
  }

  /** Any line with three or more tokens, the first not "stats", is an invalid command. */
  lemma ClassifyManyTokens(command: string)
    requires |SplitWhitespace(command)| >= 3 && SplitWhitespace(command)[0] != "stats"
    ensures Classify(command) == InvalidFormat
  {
    KeywordsAreOneToken();
    assert command != "list" && command != "quit" && command != "exit";
    assert !StartsWith(command, "stats ") by {
      if StartsWith(command, "stats ") {
        StatsPrefixFirstToken(command);
      }
    }
    var parts := SplitWhitespace(command);
    assert |parts| != 2 && |parts| != 1;
  }
}
