/** The command line of the autofm tool (autofm.c): the in-place tokeniser and the dispatcher. */
module AutoFm {
  import opened Common

  // ---- Dispatcher

  /** What get_key_type needs to know: the commands' names and how many parameters each takes. */
  datatype Table = Table(size: map<string, nat>) {
    predicate Valid() { forall c :: c in size ==> size[c] <= 3 }
    predicate IsCmd(w: string) { w in size }
  }

  /** A handler call: the position of its command word and the parameters it sees. */
  datatype Call = Call(at: nat, cmd: string, paras: seq<string>)

  /** The word at i is a command immediately followed by its declared number of non-command words. */
  predicate Complete(t: Table, ws: seq<string>, i: nat)
    requires i < |ws|
  {
    t.IsCmd(ws[i]) && i + t.size[ws[i]] < |ws|
    && forall k :: i < k <= i + t.size[ws[i]] ==> !t.IsCmd(ws[k])
  }

  /** The calls that a line of words asks for, for the command words before n, in order. */
  function Wanted(t: Table, ws: seq<string>, n: nat): seq<Call>
    requires n <= |ws|
  {
    if n == 0 then []
    else Wanted(t, ws, n - 1)
         + if Complete(t, ws, n - 1)
           then [Call(n - 1, ws[n - 1], ws[n..n + t.size[ws[n - 1]]])] else []
  }

  datatype Sta = Non | Cmd | Val1 | Val2

  /** Parameters already stored in a state. */
  function Held(s: Sta): nat { match s case Non => 0 case Cmd => 0 case Val1 => 1 case Val2 => 2 }

  /** The state between words: `at` is the position of the current command, all of whose words so far
      are values; everything wanted before it has been called. */
  ghost predicate Between(t: Table, ws: seq<string>, i: nat, s: Sta, at: nat, calls: seq<Call>) {
    && i <= |ws|
    && if s == Non then
         calls == Wanted(t, ws, i)
       else
         && at + 1 + Held(s) == i && t.IsCmd(ws[at]) && Held(s) < t.size[ws[at]]
         && (forall k :: at < k < i ==> !t.IsCmd(ws[k]))
         && calls == Wanted(t, ws, at)
  }

  /** Words that are not commands, or whose parameters are interrupted or cut off, want nothing. */
  lemma {:induction false} NothingWanted(t: Table, ws: seq<string>, m: nat, n: nat)
    requires m <= n <= |ws|
    requires forall k :: m <= k < n ==> !Complete(t, ws, k)
    ensures Wanted(t, ws, n) == Wanted(t, ws, m)
  {
    if m < n {
      NothingWanted(t, ws, m, n - 1);
    }
  }

  /** The last of a command's words has come: its call is what is wanted next. */
  lemma CallWanted(t: Table, ws: seq<string>, at: nat, n: nat)
    requires at < n <= |ws| && t.IsCmd(ws[at]) && n == at + 1 + t.size[ws[at]]
    requires forall k :: at < k < n ==> !t.IsCmd(ws[k])
    ensures Wanted(t, ws, n) == Wanted(t, ws, at) + [Call(at, ws[at], ws[at + 1..n])]
  {
    assert Wanted(t, ws, at + 1) == Wanted(t, ws, at) + [Call(at, ws[at], ws[at + 1..n])];
    NothingWanted(t, ws, at + 1, n);
  }

  /** The token state machine of main, for one line. `cmd` is the command pointer, `paras` its slots. */
  method Dispatch(t: Table, ws: seq<string>) returns (calls: seq<Call>)
    requires t.Valid()
    ensures calls == Wanted(t, ws, |ws|)
  {
    calls := [];
    var sta := Non;
    var at: nat, paras: seq<string> := 0, [];
    var i: nat := 0;
    while i < |ws|
      invariant Between(t, ws, i, sta, at, calls)
      invariant sta != Non ==> paras == ws[at + 1..i]
    {
      var key := ws[i];
      if t.IsCmd(key) {
        Interrupted(t, ws, i, sta, at, calls);
        at, paras := i, [];
        if t.size[key] == 0 {
          CallWanted(t, ws, i, i + 1);
          assert ws[i + 1..i + 1] == [];
          calls := calls + [Call(i, key, paras)];
          sta := Non;
        } else {
          sta := Cmd;
        }
      } else if sta == Non {
        assert Wanted(t, ws, i + 1) == Wanted(t, ws, i);
      } else {
        paras := paras + [key];
        assert ws[at + 1..i] + [ws[i]] == ws[at + 1..i + 1];
        var full := match sta case Cmd => t.size[ws[at]] == 1 case Val1 => t.size[ws[at]] == 2 case _ => true;
        if full {
          CallWanted(t, ws, at, i + 1);
          calls := calls + [Call(at, ws[at], paras)];
          sta := Non;
        } else {
          sta := if sta == Cmd then Val1 else Val2;
        }
      }
      i := i + 1;
    }
    Interrupted(t, ws, i, sta, at, calls);
  }

  /** A pending command that meets the next command word or the end of the line is lost. */
  lemma Interrupted(t: Table, ws: seq<string>, i: nat, s: Sta, at: nat, calls: seq<Call>)
    requires Between(t, ws, i, s, at, calls)
    requires i == |ws| || t.IsCmd(ws[i])
    ensures calls == Wanted(t, ws, i)
  {
    if s != Non {
      assert !Complete(t, ws, at) by {
        if i < |ws| {
          assert at < i <= at + t.size[ws[at]];
        }
      }
      NothingWanted(t, ws, at, i);
    }
  }

  /** A call that the words ask for: a command word followed by as many other words as it takes, which are its
      parameters. */
  predicate Asked(t: Table, ws: seq<string>, c: Call) {
    && c.at < |ws| && c.cmd == ws[c.at] && c.cmd in t.size && c.at + t.size[c.cmd] < |ws|
    && c.paras == ws[c.at + 1..c.at + 1 + t.size[c.cmd]] && forall p :: p in c.paras ==> p !in t.size
  }

  /** At each word at most one call is asked for. */
  lemma AskedAt(t: Table, ws: seq<string>, i: nat, c: Call)
    requires i < |ws| && c.at == i
    ensures Asked(t, ws, c) <==> Complete(t, ws, i) && c == Call(i, ws[i], ws[i + 1..i + 1 + t.size[ws[i]]])
  {
    CompleteParas(t, ws, i);
  }

  /** Exactly those calls are made, each once, in order. */
  lemma {:induction false} WantedExact(t: Table, ws: seq<string>, n: nat)
    requires n <= |ws|
    ensures forall c :: c in Wanted(t, ws, n) <==> c.at < n && Asked(t, ws, c)
    ensures forall j, k :: 0 <= j < k < |Wanted(t, ws, n)| ==> Wanted(t, ws, n)[j].at < Wanted(t, ws, n)[k].at
  {
    if n > 0 {
      var before, all := Wanted(t, ws, n - 1), Wanted(t, ws, n);
      WantedExact(t, ws, n - 1);
      assert forall c :: c in before ==> c.at < n - 1;
      forall c ensures c in all <==> c.at < n && Asked(t, ws, c) {
        if c.at == n - 1 {
          AskedAt(t, ws, n - 1, c);
        } else {
          assert c in all <==> c in before;
        }
      }
    }
  }

  lemma CompleteParas(t: Table, ws: seq<string>, i: nat)
    requires i < |ws|
    ensures Complete(t, ws, i) <==>
            && ws[i] in t.size && i + t.size[ws[i]] < |ws|
            && forall p :: p in ws[i + 1..i + 1 + t.size[ws[i]]] ==> p !in t.size
  {
    if ws[i] in t.size && i + t.size[ws[i]] < |ws| {
      var paras := ws[i + 1..i + 1 + t.size[ws[i]]];
      assert forall k :: i < k <= i + t.size[ws[i]] ==> ws[k] == paras[k - i - 1] && ws[k] in paras;
      assert forall k :: 0 <= k < |paras| ==> paras[k] == ws[i + 1 + k];
    }
  }

  // ---- Tokeniser

  /** check_hex_str accepts a single character. */
  predicate Printable(c: char) { '!' <= c <= '~' }

  /** These are the characters 33 to 126. */
  lemma PrintableRange(c: char)
    ensures Printable(c) <==> 33 <= c as int <= 126
  {
  }

  predicate Word(w: string) { w != "" && forall k :: 0 <= k < |w| ==> Printable(w[k]) }

  /** Length of the printable prefix. */
  function Span(s: string): (n: nat)
    ensures n <= |s| && (forall k :: 0 <= k < n ==> Printable(s[k])) && (n < |s| ==> !Printable(s[n]))
  {
    if s == "" || !Printable(s[0]) then 0 else 1 + Span(s[1..])
  }

  /** The next word of a text and the text behind its terminator; a word without one is not seen. */
  function Next(s: string): (r: Option<(string, string)>)
    ensures r.Some? ==> Word(r.value.0) && |r.value.1| < |s|
  {
    if s == "" then None
    else if !Printable(s[0]) then Next(s[1..])
    else if Span(s) == |s| then None
    else Some((s[..Span(s)], s[Span(s) + 1..]))
  }

  function Tokens(s: string): seq<string>
    decreases |s|
  {
    match Next(s)
    case None => []
    case Some((w, rest)) => [w] + Tokens(rest)
  }

  lemma NextTerminated(w: string, c: char, rest: string)
    requires Word(w) && !Printable(c)
    ensures Next(w + [c] + rest) == Some((w, rest))
  {
    var s := w + [c] + rest;
    assert forall k :: 0 <= k < |w| ==> s[k] == w[k];
    assert s[|w|] == c;
    assert Span(s) == |w|;
    assert s[..|w|] == w && s[|w| + 1..] == rest;
  }

  /** A command line: words separated by single spaces, ended by a newline. */
  function Join(ws: seq<string>): string {
    if ws == [] then "\n" else if |ws| == 1 then ws[0] + ['\n'] + "" else ws[0] + [' '] + Join(ws[1..])
  }

  /** Tokenising a joined line gives the words back. */
  lemma {:induction false} TokensOfJoin(ws: seq<string>)
    requires forall k :: 0 <= k < |ws| ==> Word(ws[k])
    ensures Tokens(Join(ws)) == ws
  {
    if ws == [] {
      assert "\n"[1..] == "";
    } else if |ws| == 1 {
      NextTerminated(ws[0], '\n', "");
      assert Tokens("") == [];
    } else {
      NextTerminated(ws[0], ' ', Join(ws[1..]));
      TokensOfJoin(ws[1..]);
    }
  }

  /** Tokenising any text, piece by piece: blanks are skipped, a word counts if something ends it. */
  lemma TokensExactly(w: string, c: char, rest: string)
    requires !Printable(c)
    ensures Tokens("") == [] && Tokens([c] + rest) == Tokens(rest)
    ensures Word(w) ==> Tokens(w) == [] && Tokens(w + [c] + rest) == [w] + Tokens(rest)
  {
    assert ([c] + rest)[1..] == rest;
    if Word(w) {
      Unterminated(w);
      NextTerminated(w, c, rest);
    }
  }

  /** A NUL-terminated text starts at i in b and ends before e. */
  ghost predicate Text(b: seq<char>, i: nat, e: nat) {
    i <= e < |b| && b[e] == '\0' && forall k :: i <= k < e ==> b[k] != '\0'
  }

  lemma SkipBlank(b: seq<char>, p: nat, e: nat)
    requires p < e <= |b| && !Printable(b[p])
    ensures Next(b[p..e]) == Next(b[p + 1..e])
  {
    assert b[p..e][1..] == b[p + 1..e];
  }

  /** A printable stretch followed by a terminator is the next word. */
  lemma SplitWord(b: seq<char>, i: nat, p: nat, e: nat)
    requires i < p < e <= |b| && Word(b[i..p]) && !Printable(b[p])
    ensures Next(b[i..e]) == Some((b[i..p], b[p + 1..e]))
  {
    assert b[i..e] == b[i..p] + [b[p]] + b[p + 1..e];
    NextTerminated(b[i..p], b[p], b[p + 1..e]);
  }

  lemma WordGrows(b: seq<char>, i: nat, p: nat)
    requires i <= p < |b| && (i < p ==> Word(b[i..p])) && Printable(b[p])
    ensures Word(b[i..p + 1])
  {
    assert b[i..p + 1] == b[i..p] + [b[p]];
  }

  lemma Unterminated(w: string)
    requires Word(w)
    ensures Next(w) == None
  {
  }

  /** Where the scan of the text b[src..e] stands at p: before a word, or in one that began at wordStart. */
  ghost predicate Scanning(b: seq<char>, src: nat, e: nat, inWord: bool, wordStart: nat, p: nat) {
    && src <= wordStart <= p <= e <= |b|
    && if inWord then wordStart < p && Word(b[wordStart..p]) && Next(b[src..e]) == Next(b[wordStart..e])
       else Next(b[src..e]) == Next(b[p..e])
  }

  lemma ScanStep(b: seq<char>, src: nat, e: nat, inWord: bool, wordStart: nat, p: nat)
    requires Scanning(b, src, e, inWord, wordStart, p) && p < e
    ensures !inWord && !Printable(b[p]) ==> Scanning(b, src, e, false, wordStart, p + 1)
    ensures !inWord && Printable(b[p]) ==> Scanning(b, src, e, true, p, p + 1)
    ensures inWord && Printable(b[p]) ==> Scanning(b, src, e, true, wordStart, p + 1)
    ensures inWord && !Printable(b[p]) ==> Next(b[src..e]) == Some((b[wordStart..p], b[p + 1..e]))
  {
    if inWord {
      if Printable(b[p]) {
        WordGrows(b, wordStart, p);
      } else {
        SplitWord(b, wordStart, p, e);
      }
    } else if Printable(b[p]) {
      WordGrows(b, p, p);
    } else {
      SkipBlank(b, p, e);
    }
  }

  lemma ScanEnd(b: seq<char>, src: nat, e: nat, inWord: bool, wordStart: nat)
    requires Scanning(b, src, e, inWord, wordStart, e)
    ensures Next(b[src..e]) == None
  {
    if inWord {
      Unterminated(b[wordStart..e]);
    }
  }

  /** The scan of cmd_parser: the next word is b[wordStart..p], ended by the character at p. */
  method FindWord(b: seq<char>, src: nat, ghost e: nat) returns (found: bool, wordStart: nat, p: nat)
    requires Text(b, src, e)
    ensures !found ==> Next(b[src..e]) == None
    ensures found ==> src <= wordStart < p < e && Next(b[src..e]) == Some((b[wordStart..p], b[p + 1..e]))
  {
    p, wordStart := src, src;
    var inWord := false;
    while b[p] != '\0'
      invariant Scanning(b, src, e, inWord, wordStart, p)
      decreases e - p
    {
      ScanStep(b, src, e, inWord, wordStart, p);
      if !inWord {
        if Printable(b[p]) {
          inWord := true;
          wordStart := p;
        }
      } else if !Printable(b[p]) {
        return true, wordStart, p;
      }
      p := p + 1;
    }
    ScanEnd(b, src, e, inWord, wordStart);
    found := false;
  }

  /** cmd_parser: finds the next word in the buffer and ends it with a NUL in place, leaving the rest. */
  method CmdParser(buf: array<char>, src: nat, ghost e: nat) returns (ret: int, newPos: nat, word: string)
    requires Text(buf[..], src, e)
    modifies buf
    ensures ret == 0 <==> Next(old(buf[src..e])).Some?
    ensures ret != 0 ==> ret == -1 && buf[..] == old(buf[..])
    ensures ret == 0 ==>
              && src + |word| < newPos <= e && Text(buf[..], newPos, e)
              && Next(old(buf[src..e])) == Some((word, buf[newPos..e]))
              && buf[..] == old(buf[..])[newPos - 1 := '\0']
              && buf[newPos - 1 - |word|..newPos] == word + ['\0']
  {
    var b := buf[..];
    assert b[src..e] == buf[src..e];
    var found, wordStart, p := FindWord(b, src, e);
    newPos, word := src, "";
    if !found {
      return -1, newPos, word;
    }
    word := buf[wordStart..p];
    buf[p] := '\0';
    newPos := p + 1;
    assert buf[newPos..e] == b[p + 1..e];
    ret := 0;
  }

  /** The word loop of main: all words of the line in the buffer. */
  method ReadWords(buf: array<char>, ghost e: nat) returns (ws: seq<string>)
    requires Text(buf[..], 0, e)
    modifies buf
    ensures ws == Tokens(old(buf[..e]))
  {
    ws := [];
    var p: nat := 0;
    assert buf[0..e] == buf[..e];
    while true
      invariant p <= e && Text(buf[..], p, e)
      invariant Tokens(old(buf[..e])) == ws + Tokens(buf[p..e])
      decreases e - p
    {
      var ret, next, word := CmdParser(buf, p, e);
      if ret != 0 {
        return;
      }
      ws := ws + [word];
      p := next;
    }
  }
}
