/**
 The Windows command line that rlimit builds, and the documented C rules by which the started
 program splits it again.
 */
module CommandLines {

  // ----- What is written -----

  predicate NeedsQuote(ca: string) {
    ca == "" || ' ' in ca || '"' in ca
  }

  function Backslashes(n: nat): (r: string)
    ensures |r| == n && forall i | 0 <= i < n :: r[i] == '\\'
  {
    seq(n, i => '\\')
  }

  /** The number of backslashes that end right before position i. */
  function RunBefore(ca: string, i: nat): (n: nat)
    requires i <= |ca|
    ensures n <= i && (forall k | i - n <= k < i :: ca[k] == '\\') && (n < i ==> ca[i - n - 1] != '\\')
  {
    if i > 0 && ca[i - 1] == '\\' then RunBefore(ca, i - 1) + 1 else 0
  }

  /** What the loop writes for the character at position i of a quoted argument. */
  function Emit(ca: string, i: nat): string
    requires i < |ca|
  {
    if ca[i] == '"' then Backslashes(RunBefore(ca, i)) + "\\\""
    else [ca[i]] + if ca[i] == '\\' && i + 1 == |ca| then Backslashes(RunBefore(ca, i + 1)) else ""
  }

  function BodyUpTo(ca: string, k: nat): string
    requires k <= |ca|
  {
    if k == 0 then "" else BodyUpTo(ca, k - 1) + Emit(ca, k - 1)
  }

  /** An argument as it appears in the command line, with the blank after it. */
  function Piece(ca: string): string {
    if NeedsQuote(ca) then "\"" + BodyUpTo(ca, |ca|) + "\" " else ca + " "
  }

  function Tail(args: seq<string>): string {
    if args == [] then "" else Tail(args[..|args| - 1]) + Piece(args[|args| - 1])
  }

  // ----- Writing it into a buffer -----

  /** The buffer holds a terminated string. */
  ghost predicate Holds(buffer: array<char>, text: string)
    reads buffer
  {
    && |text| < buffer.Length && buffer[..|text|] == text
    && buffer[|text|] == '\0' && '\0' !in text
  }

  method StrLen(buffer: array<char>, ghost text: string) returns (n: nat)
    requires Holds(buffer, text)
    ensures n == |text|
  {
    n := 0;
    while buffer[n] != '\0'
      invariant n <= |text| && (n < |text| ==> buffer[n] == text[n])
      decreases |text| - n
    {
      n := n + 1;
      assert n < |text| ==> buffer[..|text|][n] == text[n];
    }
  }

  method StrCat(buffer: array<char>, s: string, ghost text: string)
    requires Holds(buffer, text) && '\0' !in s && |text| + |s| < buffer.Length
    modifies buffer
    ensures Holds(buffer, text + s)
  {
    var n := StrLen(buffer, text);
    for i := 0 to |s|
      invariant buffer[..n + i] == text + s[..i]
    {
      buffer[n + i] := s[i];
      assert s[..i + 1] == s[..i] + [s[i]];
    }
    buffer[n + |s|] := '\0';
    assert s[..|s|] == s;
  }

  /** The inner loops: one backslash for each backslash of the argument that ends at position j. */
  method WriteRun(buffer: array<char>, at: nat, ca: string, last: int) returns (next: nat)
    requires -1 <= last < |ca| && at + RunBefore(ca, last + 1) <= buffer.Length
    modifies buffer
    ensures next == at + RunBefore(ca, last + 1)
    ensures buffer[..next] == old(buffer[..at]) + Backslashes(RunBefore(ca, last + 1))
  {
    next := at;
    var j := last;
    while j >= 0 && ca[j] == '\\'
      invariant -1 <= j <= last
      invariant next == at + (last - j) && last - j + RunBefore(ca, j + 1) == RunBefore(ca, last + 1)
      invariant buffer[..next] == old(buffer[..at]) + Backslashes(last - j)
    {
      buffer[next] := '\\';
      assert Backslashes(last - j + 1) == Backslashes(last - j) + "\\";
      next := next + 1;
      j := j - 1;
    }
  }

  /** Whether the argument must be quoted. */
  method CheckQuote(ca: string) returns (needQuote: bool)
    ensures needQuote == NeedsQuote(ca)
  {
    needQuote := true;
    if |ca| > 0 {
      needQuote := false;
    }
    for i := 0 to |ca|
      invariant needQuote <==> |ca| == 0
      invariant forall k | 0 <= k < i :: ca[k] != ' ' && ca[k] != '"'
    {
      if ca[i] == ' ' || ca[i] == '"' {
        needQuote := true;
        break;
      }
    }
  }

  /** Writes one character of a quoted argument and what escaping it needs. */
  method WriteChar(buffer: array<char>, at: nat, ca: string, i: nat) returns (next: nat)
    requires i < |ca| && at + |Emit(ca, i)| <= buffer.Length
    modifies buffer
    ensures next == at + |Emit(ca, i)|
    ensures buffer[..next] == old(buffer[..at]) + Emit(ca, i)
  {
    next := at;
    if ca[i] == '"' {
      next := WriteEscapedQuote(buffer, next, ca, i);
    } else {
      ghost var before := buffer[..at];
      buffer[next] := ca[i];
      next := next + 1;
      assert buffer[..next] == before + [ca[i]];
      if ca[i] == '\\' && i + 1 == |ca| {
        next := WriteRun(buffer, next, ca, i);
        Associate(before, [ca[i]], Backslashes(RunBefore(ca, i + 1)));
      } else {
        assert [ca[i]] + "" == [ca[i]];
      }
    }
  }

  /** The branch for a double quote: the backslashes before it again, and a backslash for itself. */
  method WriteEscapedQuote(buffer: array<char>, at: nat, ca: string, i: nat) returns (next: nat)
    requires i < |ca| && ca[i] == '"' && at + RunBefore(ca, i) + 2 <= buffer.Length
    modifies buffer
    ensures next == at + RunBefore(ca, i) + 2
    ensures buffer[..next] == old(buffer[..at]) + (Backslashes(RunBefore(ca, i)) + "\\\"")
  {
    next := at;
    ghost var before := buffer[..at];
    if i > 0 && ca[i - 1] == '\\' {
      next := WriteRun(buffer, next, ca, i - 1);
    }
    ghost var text := before + Backslashes(RunBefore(ca, i));
    assert buffer[..next] == text;
    buffer[next] := '\\';
    buffer[next + 1] := '"';
    next := next + 2;
    assert buffer[..next] == text + "\\\"";
    Associate(before, Backslashes(RunBefore(ca, i)), "\\\"");
  }

  method WriteBody(buffer: array<char>, at: nat, ca: string) returns (next: nat)
    requires at + |BodyUpTo(ca, |ca|)| <= buffer.Length
    modifies buffer
    ensures next == at + |BodyUpTo(ca, |ca|)|
    ensures buffer[..next] == old(buffer[..at]) + BodyUpTo(ca, |ca|)
  {
    hide Emit;
    next := at;
    ghost var before := buffer[..at];
    assert before + BodyUpTo(ca, 0) == before;
    for i := 0 to |ca|
      invariant next == at + |BodyUpTo(ca, i)| <= buffer.Length
      invariant buffer[..next] == before + BodyUpTo(ca, i)
    {
      BodyGrows(ca, i + 1, |ca|);
      next := WriteChar(buffer, next, ca, i);
      assert before + BodyUpTo(ca, i) + Emit(ca, i) == before + BodyUpTo(ca, i + 1);
    }
  }

  /** The quoting branch of the loop over the arguments. */
  method AppendQuoted(buffer: array<char>, ca: string, ghost text: string)
    requires Holds(buffer, text) && '\0' !in ca && NeedsQuote(ca)
    requires |text + Piece(ca)| < buffer.Length
    modifies buffer
    ensures Holds(buffer, text + Piece(ca))
  {
    hide BodyUpTo;
    ghost var body := BodyUpTo(ca, |ca|);
    var index := StrLen(buffer, text);
    index := PutChar(buffer, index, '"', text);
    index := WriteBody(buffer, index, ca);
    index := PutChar(buffer, index, '"', text + "\"" + body);
    index := PutChar(buffer, index, ' ', text + "\"" + body + "\"");
    BodyHasNoNul(ca, |ca|);
    assert text + "\"" + body + "\"" + " " == text + Piece(ca);
    buffer[index] := '\0';
  }

  /** One character more at the end. */
  method PutChar(buffer: array<char>, at: nat, c: char, ghost text: string) returns (next: nat)
    requires at == |text| < buffer.Length && buffer[..at] == text
    modifies buffer
    ensures next == at + 1 && buffer[..next] == text + [c]
  {
    buffer[at] := c;
    next := at + 1;
  }

  /** One argument of the loop over the arguments. */
  method AppendArgument(buffer: array<char>, ca: string, ghost text: string)
    requires Holds(buffer, text) && '\0' !in ca
    requires |text + Piece(ca)| < buffer.Length
    modifies buffer
    ensures Holds(buffer, text + Piece(ca))
  {
    var needQuote := CheckQuote(ca);
    if needQuote {
      AppendQuoted(buffer, ca, text);
    } else {
      StrCat(buffer, ca, text);
      StrCat(buffer, " ", text + ca);
      assert text + ca + " " == text + (ca + " ");
    }
  }

  /** The command line for a command and its arguments, which must fit the buffer. */
  method BuildCommandLine(buffer: array<char>, name: string, args: seq<string>)
    requires '\0' !in name && forall a | a in args :: '\0' !in a
    requires |name + " " + Tail(args)| < buffer.Length
    modifies buffer
    ensures Holds(buffer, name + " " + Tail(args))
  {
    hide Piece, Tail;
    buffer[0] := '\0';
    assert Holds(buffer, "");
    StrCat(buffer, name, "");
    assert "" + name == name;
    StrCat(buffer, " ", name);
    ghost var text := name + " ";
    TailStart(args, text);
    for k := 0 to |args|
      invariant Holds(buffer, text + Tail(args[..k]))
    {
      TailStep(args, k, text);
      AppendArgument(buffer, args[k], text + Tail(args[..k]));
    }
    assert args[..|args|] == args;
  }

  lemma TailStart(args: seq<string>, text: string)
    ensures text + Tail(args[..0]) == text
  {
  }

  lemma TailStep(args: seq<string>, k: nat, text: string)
    requires k < |args|
    ensures text + Tail(args[..k]) + Piece(args[k]) == text + Tail(args[..k + 1])
    ensures |text + Tail(args[..k + 1])| <= |text + Tail(args)|
  {
    hide Piece;
    assert args[..k + 1][..k] == args[..k];
    Associate(text, Tail(args[..k]), Piece(args[k]));
    TailGrows(args, k + 1);
  }

  lemma Associate(a: string, b: string, c: string)
    ensures a + b + c == a + (b + c)
  {
  }

  lemma {:induction false} BodyGrows(ca: string, j: nat, k: nat)
    requires j <= k <= |ca|
    ensures |BodyUpTo(ca, j)| <= |BodyUpTo(ca, k)|
    decreases k
  {
    hide Emit, RunBefore;
    if j < k { BodyGrows(ca, j, k - 1); }
  }

  lemma {:induction false} BodyHasNoNul(ca: string, k: nat)
    requires k <= |ca| && '\0' !in ca
    ensures '\0' !in BodyUpTo(ca, k)
  {
    if k > 0 {
      BodyHasNoNul(ca, k - 1);
    }
  }

  lemma {:induction false} TailGrows(args: seq<string>, k: nat)
    requires k <= |args|
    ensures |Tail(args[..k])| <= |Tail(args)|
    decreases |args|
  {
    if k < |args| {
      TailGrows(args[..|args| - 1], k);
      assert args[..|args| - 1][..k] == args[..k];
    } else {
      assert args[..k] == args;
    }
  }

  // ----- How it is split again -----

  predicate IsBlank(c: char) { c == ' ' || c == '\t' }

  /** The number of backslashes at the front. */
  function Run(s: string): (n: nat)
    ensures n <= |s| && (forall i | 0 <= i < n :: s[i] == '\\') && (n < |s| ==> s[n] != '\\')
  {
    if s != "" && s[0] == '\\' then 1 + Run(s[1..]) else 0
  }

  /**
   One argument and what follows it, by the documented rules for C programs: an even run of
   backslashes before a quote gives half of them and the quote delimits; an odd run gives half of
   them and a literal quote; other backslashes are literal; blanks end the argument outside quotes.
   With pairs, two quotes in a row inside quotes are a literal quote.
   */
  function Scan(pairs: bool, s: string, inQuotes: bool, acc: string): (r: (string, string))
    ensures |r.1| <= |s|
    ensures s != "" && (inQuotes || !IsBlank(s[0])) ==> |r.1| < |s|
    decreases |s|
  {
    if s == "" then (acc, s)
    else if s[0] == '\\' then
      var n := Run(s);
      if n < |s| && s[n] == '"' then
        if n % 2 == 0 then Scan(pairs, s[n..], inQuotes, acc + Backslashes(n / 2))
        else Scan(pairs, s[n + 1..], inQuotes, acc + Backslashes(n / 2) + "\"")
      else Scan(pairs, s[n..], inQuotes, acc + Backslashes(n))
    else if s[0] == '"' then
      if inQuotes && pairs && |s| > 1 && s[1] == '"' then Scan(pairs, s[2..], inQuotes, acc + "\"")
      else Scan(pairs, s[1..], !inQuotes, acc)
    else if !inQuotes && IsBlank(s[0]) then (acc, s)
    else Scan(pairs, s[1..], inQuotes, acc + [s[0]])
  }

  function SplitArgs(pairs: bool, s: string): seq<string>
    decreases |s|
  {
    if s == "" then []
    else if IsBlank(s[0]) then SplitArgs(pairs, s[1..])
    else
      var r := Scan(pairs, s, false, "");
      [r.0] + SplitArgs(pairs, r.1)
  }

  // ----- Scanning what the loop wrote -----

  lemma {:induction false} RunOfBackslashes(n: nat, t: string)
    requires t == "" || t[0] != '\\'
    ensures Run(Backslashes(n) + t) == n
    decreases n
  {
    if n == 0 {
      assert Backslashes(0) + t == t;
    } else {
      assert (Backslashes(n) + t)[1..] == Backslashes(n - 1) + t;
      RunOfBackslashes(n - 1, t);
    }
  }

  /** A run of n backslashes before a quote. */
  lemma ScanRun(pairs: bool, s: string, n: nat, inQuotes: bool, acc: string)
    requires 0 < n < |s| && s[0] == '\\' && Run(s) == n && s[n] == '"'
    ensures n % 2 == 0 ==> Scan(pairs, s, inQuotes, acc) == Scan(pairs, s[n..], inQuotes, acc + Backslashes(n / 2))
    ensures n % 2 == 1 ==>
              Scan(pairs, s, inQuotes, acc) == Scan(pairs, s[n + 1..], inQuotes, acc + Backslashes(n / 2) + "\"")
  {
  }

  lemma ScanOdd(pairs: bool, k: nat, t: string, inQuotes: bool, acc: string)
    ensures Scan(pairs, Backslashes(2 * k + 1) + "\"" + t, inQuotes, acc) ==
            Scan(pairs, t, inQuotes, acc + Backslashes(k) + "\"")
  {
    hide Scan, Run;
    var n, s := 2 * k + 1, Backslashes(2 * k + 1) + "\"" + t;
    assert s == Backslashes(n) + ("\"" + t);
    RunOfBackslashes(n, "\"" + t);
    assert s[0] == '\\' && s[n + 1..] == t && n / 2 == k;
    ScanRun(pairs, s, n, inQuotes, acc);
  }

  lemma ScanEven(pairs: bool, k: nat, t: string, inQuotes: bool, acc: string)
    ensures Scan(pairs, Backslashes(2 * k) + "\"" + t, inQuotes, acc) ==
            Scan(pairs, "\"" + t, inQuotes, acc + Backslashes(k))
  {
    hide Scan, Run;
    var n, s := 2 * k, Backslashes(2 * k) + "\"" + t;
    assert s == Backslashes(n) + ("\"" + t);
    if k == 0 {
      assert s == "\"" + t && acc + Backslashes(0) == acc;
    } else {
      RunOfBackslashes(n, "\"" + t);
      assert s[0] == '\\' && s[n..] == "\"" + t && n / 2 == k;
      ScanRun(pairs, s, n, inQuotes, acc);
    }
  }

  lemma ScanPlain(pairs: bool, n: nat, t: string, inQuotes: bool, acc: string)
    requires t == "" || (t[0] != '\\' && t[0] != '"')
    ensures Scan(pairs, Backslashes(n) + t, inQuotes, acc) == Scan(pairs, t, inQuotes, acc + Backslashes(n))
  {
    var s := Backslashes(n) + t;
    if n == 0 {
      assert s == t && acc + Backslashes(0) == acc;
    } else {
      RunOfBackslashes(n, t);
      assert s[0] == '\\' && s[n..] == t;
    }
  }

  /** What is still to be written from position i on. */
  function BodyFrom(ca: string, i: nat): string
    requires i <= |ca|
    decreases |ca| - i
  {
    if i == |ca| then "" else Emit(ca, i) + BodyFrom(ca, i + 1)
  }

  lemma {:induction false} BodySplit(ca: string, i: nat)
    requires i <= |ca|
    ensures BodyUpTo(ca, i) + BodyFrom(ca, i) == BodyUpTo(ca, |ca|)
    decreases |ca| - i
  {
    hide Emit;
    if i < |ca| {
      BodySplit(ca, i + 1);
      assert BodyUpTo(ca, i) + (Emit(ca, i) + BodyFrom(ca, i + 1)) == BodyUpTo(ca, i + 1) + BodyFrom(ca, i + 1);
    } else {
      assert BodyUpTo(ca, i) + "" == BodyUpTo(ca, i);
    }
  }

  /** The position is not in the middle of a run of backslashes. */
  predicate AtRunStart(ca: string, i: nat)
    requires i <= |ca|
  {
    i == 0 || ca[i - 1] != '\\'
  }

  lemma {:induction false} RunLength(ca: string, i: nat, k: nat)
    requires i + k <= |ca| && AtRunStart(ca, i) && forall j | i <= j < i + k :: ca[j] == '\\'
    ensures RunBefore(ca, i + k) == k
    decreases k
  {
    if k > 0 { RunLength(ca, i, k - 1); }
  }

  /** A backslash is written as it is, except that the last character brings the run before the closing quote again. */
  lemma EmitInRun(ca: string, i: nat, n: nat, j: nat)
    requires i <= j < i + n <= |ca| && AtRunStart(ca, i) && forall k | i <= k < i + n :: ca[k] == '\\'
    ensures Emit(ca, j) == "\\" + if j + 1 == |ca| then Backslashes(n) else ""
  {
    if j + 1 == |ca| { RunLength(ca, i, n); }
  }

  /** What a run brings when it ends the argument. */
  function Doubled(ca: string, end: nat, n: nat): string {
    if end == |ca| && n > 0 then Backslashes(n) else ""
  }

  /** A whole run of n backslashes from i on is written once, and twice at the end of the argument. */
  lemma {:induction false} BodyOfRun(ca: string, i: nat, n: nat, k: nat)
    requires i + n <= |ca| && k < n && AtRunStart(ca, i) && forall j | i <= j < i + n :: ca[j] == '\\'
    ensures BodyFrom(ca, i + k) == Backslashes(n - k) + Doubled(ca, i + n, n) + BodyFrom(ca, i + n)
    decreases n - k
  {
    hide Emit, Doubled;
    EmitInRun(ca, i, n, i + k);
    if k + 1 < n {
      BodyOfRun(ca, i, n, k + 1);
      var more := Doubled(ca, i + n, n) + BodyFrom(ca, i + n);
      assert "\\" + "" + (Backslashes(n - k - 1) + Doubled(ca, i + n, n) + BodyFrom(ca, i + n)) ==
             Backslashes(n - k) + Doubled(ca, i + n, n) + BodyFrom(ca, i + n);
    } else {
      DoubledMeans(ca, i + n, n);
      assert Backslashes(1) == "\\";
    }
  }

  lemma DoubledMeans(ca: string, end: nat, n: nat)
    ensures Doubled(ca, end, n) == if end == |ca| && n > 0 then Backslashes(n) else ""
    ensures n == 0 ==> Backslashes(n) + Doubled(ca, end, n) == ""
  {
  }

  /** Scanning a quoted argument from a place outside backslash runs gives back the argument. */
  lemma {:induction false} ScanBody(pairs: bool, ca: string, i: nat, rest: string)
    requires i <= |ca| && AtRunStart(ca, i)
    ensures Scan(pairs, BodyFrom(ca, i) + "\" " + rest, true, ca[..i]) == (ca, " " + rest)
    decreases |ca| - i
  {
    hide Scan, BodyFrom, Emit, Doubled, Run;
    var n, acc := Run(ca[i..]), ca[..i];
    assert forall j | i <= j < i + n :: ca[j] == ca[i..][j - i];
    if n > 0 {
      BodyOfRun(ca, i, n, 0);
    } else {
      DoubledMeans(ca, i, 0);
      assert BodyFrom(ca, i) == "" + BodyFrom(ca, i);
    }
    assert acc + Backslashes(n) == ca[..i + n];
    if i + n == |ca| {
      ScanEnd(pairs, ca, i, n, rest);
    } else {
      assert ca[i + n] == ca[i..][n];
      RunLength(ca, i, n);
      ScanBody(pairs, ca, i + n + 1, rest);
      ScanMiddle(pairs, ca, i, n, rest);
    }
  }

  /** The closing quote after a final run. */
  lemma ScanEnd(pairs: bool, ca: string, i: nat, n: nat, rest: string)
    requires i + n == |ca| && ca[..i] + Backslashes(n) == ca
    requires BodyFrom(ca, i) == Backslashes(n) + Doubled(ca, i + n, n) + BodyFrom(ca, i + n)
    ensures Scan(pairs, BodyFrom(ca, i) + "\" " + rest, true, ca[..i]) == (ca, " " + rest)
  {
    var t := " " + rest;
    DoubledMeans(ca, i + n, n);
    assert Backslashes(n) + Doubled(ca, i + n, n) == Backslashes(2 * n);
    assert BodyFrom(ca, i + n) == "";
    assert BodyFrom(ca, i) + "\" " + rest == Backslashes(2 * n) + "\"" + t;
    ScanEven(pairs, n, t, true, ca[..i]);
    ScanClosingQuote(pairs, t, ca);
  }

  lemma ScanClosingQuote(pairs: bool, t: string, acc: string)
    requires t != "" && t[0] == ' '
    ensures Scan(pairs, "\"" + t, true, acc) == (acc, t)
  {
    var s := "\"" + t;
    assert s[1..] == t && s[1] == ' ';
    assert Scan(pairs, t, false, acc) == (acc, t);
  }

  /** A run in the middle, and the character after it. */
  lemma ScanMiddle(pairs: bool, ca: string, i: nat, n: nat, rest: string)
    requires i + n < |ca| && ca[i + n] != '\\' && ca[..i] + Backslashes(n) == ca[..i + n]
    requires BodyFrom(ca, i) == Backslashes(n) + Doubled(ca, i + n, n) + BodyFrom(ca, i + n)
             && RunBefore(ca, i + n) == n
    requires Scan(pairs, BodyFrom(ca, i + n + 1) + "\" " + rest, true, ca[..i + n + 1]) == (ca, " " + rest)
    ensures Scan(pairs, BodyFrom(ca, i) + "\" " + rest, true, ca[..i]) == (ca, " " + rest)
  {
    hide Scan, Emit;
    var body, emitted := BodyFrom(ca, i + n + 1), Emit(ca, i + n);
    var t := body + "\" " + rest;
    assert BodyFrom(ca, i + n) == emitted + body && Doubled(ca, i + n, n) == "";
    assert ca[..i + n + 1] == ca[..i] + Backslashes(n) + [ca[i + n]];
    EmitMiddle(ca, i + n);
    ScanRunAndChar(pairs, n, ca[i + n], t, ca[..i]);
    Regroup(Backslashes(n), emitted, body, rest);
  }

  lemma Regroup(run: string, emitted: string, body: string, rest: string)
    ensures run + "" + (emitted + body) + "\" " + rest == run + (emitted + (body + "\" " + rest))
  {
  }

  lemma EmitMiddle(ca: string, j: nat)
    requires j < |ca| && ca[j] != '\\'
    ensures Emit(ca, j) == if ca[j] == '"' then Backslashes(RunBefore(ca, j)) + "\\\"" else [ca[j]]
  {
  }

  /** A run of backslashes and the character after it, as they are written inside quotes. */
  lemma ScanRunAndChar(pairs: bool, n: nat, c: char, t: string, acc: string)
    requires c != '\\'
    ensures var emitted := if c == '"' then Backslashes(n) + "\\\"" else [c];
            Scan(pairs, Backslashes(n) + (emitted + t), true, acc) == Scan(pairs, t, true, acc + Backslashes(n) + [c])
  {
    hide Scan;
    if c == '"' {
      assert Backslashes(n) + (Backslashes(n) + "\\\"" + t) == Backslashes(2 * n + 1) + "\"" + t;
      ScanOdd(pairs, n, t, true, acc);
    } else {
      ScanPlain(pairs, n, [c] + t, true, acc);
      ScanOther(pairs, c, t, true, acc + Backslashes(n));
    }
  }

  lemma ScanOther(pairs: bool, c: char, t: string, inQuotes: bool, acc: string)
    requires c != '\\' && c != '"' && (inQuotes || !IsBlank(c))
    ensures Scan(pairs, [c] + t, inQuotes, acc) == Scan(pairs, t, inQuotes, acc + [c])
  {
    assert ([c] + t)[1..] == t;
  }

  // ----- Arguments that are not quoted -----

  /** The part up to the first tab. */
  function WordLength(ca: string): (n: nat)
    ensures n <= |ca| && '\t' !in ca[..n] && (n < |ca| ==> ca[n] == '\t')
  {
    if ca == "" || ca[0] == '\t' then 0 else 1 + WordLength(ca[1..])
  }

  /** The words between the tabs. */
  function Words(ca: string): seq<string>
    decreases |ca|
  {
    if ca == "" then []
    else if ca[0] == '\t' then Words(ca[1..])
    else
      var n := WordLength(ca);
      [ca[..n]] + Words(ca[n..])
  }

  /** Nothing in the word delimits or escapes. */
  predicate Plain(word: string) {
    forall c | c in word :: c != '"' && !IsBlank(c)
  }

  lemma PlainIs(word: string)
    ensures Plain(word) <==> forall c | c in word :: c != '"' && !IsBlank(c)
  {
  }

  lemma PlainSuffix(word: string, n: nat)
    requires Plain(word) && n <= |word|
    ensures Plain(word[n..]) && (n < |word| ==> word[n] != '"' && !IsBlank(word[n]))
  {
    forall c | c in word[n..] ensures c != '"' && !IsBlank(c) {
      assert c in word;
    }
    assert n < |word| ==> word[n] in word;
  }

  /** A plain word is scanned as it is. */
  lemma {:induction false} ScanWord(pairs: bool, word: string, t: string, acc: string)
    requires Plain(word) && t != "" && IsBlank(t[0])
    ensures Scan(pairs, word + t, false, acc) == (acc + word, t)
    decreases |word|
  {
    if word == "" {
      assert "" + t == t && acc + "" == acc;
    } else {
      hide Scan, Run, Plain;
      var n := Run(word);
      var run, rest := Backslashes(n), word[n..];
      assert word == run + rest;
      Associate(run, rest, t);
      Associate(acc, run, rest);
      if rest == "" {
        assert rest + t == t && acc + run + rest == acc + run;
        ScanPlain(pairs, n, t, false, acc);
        ScanWord(pairs, rest, t, acc + run);
      } else {
        PlainSuffix(word, n);
        PlainSuffix(word, n + 1);
        var c, more := rest[0], word[n + 1..];
        assert rest == [c] + more;
        ScanPlain(pairs, n, rest + t, false, acc);
        Associate([c], more, t);
        ScanOther(pairs, c, more + t, false, acc + run);
        ScanWord(pairs, more, t, acc + run + [c]);
        Associate(acc + run, [c], more);
      }
    }
  }

  lemma {:induction false} SplitUnquoted(pairs: bool, ca: string, rest: string)
    requires ' ' !in ca && '"' !in ca
    ensures SplitArgs(pairs, ca + " " + rest) == Words(ca) + SplitArgs(pairs, rest)
    decreases |ca|
  {
    hide Scan, Run, Plain;
    var s := ca + " " + rest;
    if ca == "" {
      assert s[1..] == rest;
      assert [] + SplitArgs(pairs, rest) == SplitArgs(pairs, rest);
    } else if ca[0] == '\t' {
      assert s[1..] == ca[1..] + " " + rest;
      SplitUnquoted(pairs, ca[1..], rest);
    } else {
      var n := WordLength(ca);
      var word, more := ca[..n], ca[n..];
      assert ca[0] in word && forall c | c in word :: c in ca && c != '\t';
      var t := more + " " + rest;
      assert s == word + t;
      PlainIs(word);
      ScanWord(pairs, word, t, "");
      SplitUnquoted(pairs, more, rest);
      assert "" + word == word;
      assert [word] + (Words(more) + SplitArgs(pairs, rest)) == [word] + Words(more) + SplitArgs(pairs, rest);
    }
  }

  lemma SplitQuoted(pairs: bool, ca: string, rest: string)
    requires NeedsQuote(ca)
    ensures SplitArgs(pairs, Piece(ca) + rest) == [ca] + SplitArgs(pairs, rest)
  {
    hide Scan, BodyFrom, BodyUpTo, NeedsQuote;
    var t := BodyFrom(ca, 0) + "\" " + rest;
    PieceQuoted(ca, rest);
    ScanBody(pairs, ca, 0, rest);
    assert ca[..0] == "";
    ScanOpeningQuote(pairs, t);
    assert (" " + rest)[1..] == rest;
  }

  lemma PieceQuoted(ca: string, rest: string)
    requires NeedsQuote(ca)
    ensures Piece(ca) + rest == "\"" + (BodyFrom(ca, 0) + "\" " + rest)
  {
    BodySplit(ca, 0);
    assert BodyUpTo(ca, 0) == "" && Piece(ca) == "\"" + BodyUpTo(ca, |ca|) + "\" ";
    hide *;
    var body := BodyFrom(ca, 0);
    assert "" + body == body == BodyUpTo(ca, |ca|);
    assert "\"" + body + "\" " + rest == "\"" + (body + "\" " + rest);
  }

  lemma ScanOpeningQuote(pairs: bool, t: string)
    ensures Scan(pairs, "\"" + t, false, "") == Scan(pairs, t, true, "")
  {
    assert ("\"" + t)[1..] == t;
  }

  // ----- The round trip -----

  /** What the started program gets for one argument. */
  function Parts(ca: string): seq<string> {
    if NeedsQuote(ca) then [ca] else Words(ca)
  }

  function AllParts(args: seq<string>): seq<string> {
    if args == [] then [] else Parts(args[0]) + AllParts(args[1..])
  }

  lemma {:induction false} TailFront(args: seq<string>)
    requires args != []
    ensures Tail(args) == Piece(args[0]) + Tail(args[1..])
    decreases |args|
  {
    hide Piece;
    if |args| > 1 {
      var init, last := args[..|args| - 1], args[|args| - 1];
      TailFront(init);
      assert init[1..] == args[1..][..|args| - 2];
      assert args[1..][|args| - 2] == last;
      Associate(Piece(args[0]), Tail(init[1..]), Piece(last));
    } else {
      assert args[..0] == [] && args[1..] == [];
      assert "" + Piece(args[0]) == Piece(args[0]) == Piece(args[0]) + "";
    }
  }

  /** Exactly what the started program gets, for any arguments. */
  lemma {:induction false} SplitTail(pairs: bool, args: seq<string>)
    ensures SplitArgs(pairs, Tail(args)) == AllParts(args)
    decreases |args|
  {
    if args != [] {
      TailFront(args);
      var ca, rest := args[0], Tail(args[1..]);
      SplitTail(pairs, args[1..]);
      if NeedsQuote(ca) {
        SplitQuoted(pairs, ca, rest);
      } else {
        SplitUnquoted(pairs, ca, rest);
      }
    }
  }

  /** The argument is written so that a tab in it does not delimit. */
  predicate Safe(ca: string) {
    '\t' in ca ==> NeedsQuote(ca)
  }

  function Tabs(s: string): nat {
    if s == "" then 0 else Tabs(s[1..]) + if s[0] == '\t' then 1 else 0
  }

  function AllTabs(args: seq<string>): nat {
    if args == [] then 0 else Tabs(args[0]) + AllTabs(args[1..])
  }

  lemma {:induction false} WordsHaveNoTabs(ca: string)
    ensures AllTabs(Words(ca)) == 0
    ensures '\t' in ca <==> Tabs(ca) > 0
    ensures '\t' !in ca && ca != "" ==> Words(ca) == [ca]
    decreases |ca|
  {
    if ca != "" {
      TabIff(ca);
      if ca[0] == '\t' {
        WordsHaveNoTabs(ca[1..]);
      } else {
        var n := WordLength(ca);
        TabIff(ca[..n]);
        assert ca[0] in ca[..n];
        WordsHaveNoTabs(ca[n..]);
        assert ([ca[..n]] + Words(ca[n..]))[1..] == Words(ca[n..]);
        if n == |ca| { assert ca[..n] == ca && ca[n..] == ""; }
      }
    }
  }

  lemma {:induction false} TabIff(s: string)
    ensures '\t' in s <==> Tabs(s) > 0
    decreases |s|
  {
    if s != "" { TabIff(s[1..]); }
  }

  lemma {:induction false} AllTabsConcat(a: seq<string>, b: seq<string>)
    ensures AllTabs(a + b) == AllTabs(a) + AllTabs(b)
    decreases |a|
  {
    if a == [] {
      assert a + b == b;
    } else {
      assert (a + b)[1..] == a[1..] + b;
      AllTabsConcat(a[1..], b);
    }
  }

  /** Tabs are only ever lost, and some are if an argument is not safe. */
  lemma {:induction false} PartsLoseTabs(args: seq<string>)
    ensures AllTabs(AllParts(args)) <= AllTabs(args)
    ensures (exists a :: a in args && !Safe(a)) ==> AllTabs(AllParts(args)) < AllTabs(args)
    decreases |args|
  {
    if args != [] {
      var ca := args[0];
      assert args == [ca] + args[1..];
      PartsLoseTabs(args[1..]);
      AllTabsConcat(Parts(ca), AllParts(args[1..]));
      WordsHaveNoTabs(ca);
      assert [ca][1..] == [];
      assert AllTabs([ca]) == Tabs(ca);
    }
  }

  lemma {:induction false} SafeArrives(args: seq<string>)
    requires forall a | a in args :: Safe(a)
    ensures AllParts(args) == args
    decreases |args|
  {
    if args != [] {
      assert args[0] in args && args == [args[0]] + args[1..];
      WordsHaveNoTabs(args[0]);
      SafeArrives(args[1..]);
    }
  }

  /**
   The started program gets back exactly the arguments if and only if each argument with a tab is
   quoted for another reason; whether two quotes inside quotes are a literal one does not matter.
   */
  lemma RoundTrip(pairs: bool, args: seq<string>)
    ensures SplitArgs(pairs, Tail(args)) == args <==> forall a | a in args && '\t' in a :: ' ' in a || '"' in a
  {
    assert forall a :: Safe(a) <==> ('\t' in a ==> ' ' in a || '"' in a);
    SplitTail(pairs, args);
    PartsLoseTabs(args);
    if forall a | a in args :: Safe(a) {
      SafeArrives(args);
    }
  }

  /** An argument with a tab and nothing that makes it quoted arrives in two parts. */
  lemma TabSplitsArgument(pairs: bool)
    ensures SplitArgs(pairs, Tail(["a\tb"])) == ["a", "b"]
  {
    SplitTail(pairs, ["a\tb"]);
    var ca := "a\tb";
    assert ca[1..] == "\tb" && ca[1..][1..] == "b" && WordLength("b") == 1;
    assert WordLength(ca) == 1 && ca[..1] == "a";
    assert Words("\tb") == Words("b") == ["b"] by { assert "\tb"[1..] == "b" && "b"[..1] == "b" && "b"[1..] == ""; }
    assert Words(ca) == ["a"] + ["b"];
    assert AllParts([ca]) == Words(ca) + [];
  }

  // ----- The size of what is written -----

  /** Each character is paid for twice: for itself, and for the backslashes that may have to be written again. */
  lemma EmitSize(ca: string, i: nat)
    requires i < |ca|
    ensures |Emit(ca, i)| + (if i + 1 < |ca| then RunBefore(ca, i + 1) else 0) <= 2 + RunBefore(ca, i)
  {
  }

  lemma BodyLength(ca: string, k: nat)
    requires k <= |ca|
    ensures |BodyUpTo(ca, k)| == if k == 0 then 0 else |BodyUpTo(ca, k - 1)| + |Emit(ca, k - 1)|
  {
    hide Emit;
  }

  lemma {:induction false} BodySize(ca: string, k: nat)
    requires k <= |ca|
    ensures |BodyUpTo(ca, k)| + (if k < |ca| then RunBefore(ca, k) else 0) <= 2 * k
    decreases k
  {
    hide *;
    BodyLength(ca, k);
    if k > 0 {
      EmitSize(ca, k - 1);
      BodySize(ca, k - 1);
    }
  }

  /** An argument of length n takes at most 2n + 3 characters of the buffer. */
  lemma PieceSize(ca: string)
    ensures |Piece(ca)| <= 2 * |ca| + 3
  {
    BodySize(ca, |ca|);
  }
}
