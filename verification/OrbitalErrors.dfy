/** Error text of orbital jobs: printing, parsing and merging
  * (internal/event-processor/errors.go, internal/event-processor/helpers.go). */
module OrbitalErrors {

  datatype OrbitalError = OrbitalError(message: string, code: string)

  const DefaultErrorCode := "UNKNOWN"
  const KeyVersionMismatchCode := "KEY_VERSION_MISMATCH"

  predicate Upper(c: char) { 'A' <= c <= 'Z' }

  /** The automaton of ^[A-Z]+(?:_[A-Z]+)*$; `word` says that a letter was just read. */
  predicate Scan(s: string, word: bool) {
    if s == "" then word
    else if Upper(s[0]) then Scan(s[1..], true)
    else s[0] == '_' && word && Scan(s[1..], false)
  }

  predicate IsCode(s: string) { Scan(s, false) }

  /** The position of the first colon, or the length when there is none. */
  function Colon(s: string): (i: nat)
    ensures i <= |s|
    ensures ':' !in s[..i]
    ensures i < |s| ==> s[i] == ':'
  {
    if s == "" || s[0] == ':' then 0 else 1 + Colon(s[1..])
  }

  function Print(e: OrbitalError): string { e.code + ":" + e.message }

  function Parse(s: string): OrbitalError {
    var i := Colon(s);
    if i < |s| && IsCode(s[..i]) then OrbitalError(s[i + 1..], s[..i])
    else OrbitalError(s, DefaultErrorCode)
  }

  predicate IsVersionMismatch(s: string) { Parse(s).code == KeyVersionMismatchCode }

  // ---- the language of codes ----

  predicate Word(w: string) { w != "" && forall i :: 0 <= i < |w| ==> Upper(w[i]) }

  function Join(parts: seq<string>, separator: char): string {
    if parts == [] then "" else if |parts| == 1 then parts[0]
    else parts[0] + [separator] + Join(parts[1..], separator)
  }

  lemma {:induction false} ScanWord(w: string, rest: string, word: bool)
    requires forall i :: 0 <= i < |w| ==> Upper(w[i])
    ensures Scan(w + rest, word) == Scan(rest, word || w != "")
  {
    if w == "" {
      assert w + rest == rest;
    } else {
      assert (w + rest)[0] == w[0] && (w + rest)[1..] == w[1..] + rest;
      ScanWord(w[1..], rest, true);
    }
  }

  /** Every non-empty list of upper-case words joined by underscores is a code. */
  lemma {:induction false} JoinedWordsAreCodes(words: seq<string>)
    requires words != [] && forall i :: 0 <= i < |words| ==> Word(words[i])
    ensures IsCode(Join(words, '_'))
  {
    if |words| == 1 {
      assert words[0] + "" == words[0];
      ScanWord(words[0], "", false);
    } else {
      JoinedWordsAreCodes(words[1..]);
      var rest := "_" + Join(words[1..], '_');
      ScanWord(words[0], rest, false);
      assert rest[0] == '_' && rest[1..] == Join(words[1..], '_');
      assert Join(words, '_') == words[0] + rest;
    }
  }

  /** ... and every code is such a list. */
  lemma {:induction false} CodesAreJoinedWords(s: string, w: string) returns (words: seq<string>)
    requires Scan(s, w != "") && forall i :: 0 <= i < |w| ==> Upper(w[i])
    ensures words != [] && forall i :: 0 <= i < |words| ==> Word(words[i])
    ensures Join(words, '_') == w + s
    decreases |s|
  {
    if s == "" {
      words := [w];
      assert w + s == w;
    } else if Upper(s[0]) {
      words := CodesAreJoinedWords(s[1..], w + [s[0]]);
      assert w + [s[0]] + s[1..] == w + s;
    } else {
      var more := CodesAreJoinedWords(s[1..], "");
      words := [w] + more;
      assert words[1..] == more && "" + s[1..] == s[1..];
      assert w + "_" + s[1..] == w + s;
    }
  }

  lemma {:induction false} CodesHaveNoColon(s: string, word: bool)
    requires Scan(s, word)
    ensures ':' !in s
  {
    if s != "" {
      CodesHaveNoColon(s[1..], Upper(s[0]));
      assert s == [s[0]] + s[1..];
    }
  }

  // ---- round trips ----

  lemma {:induction false} ColonAfterPrefix(prefix: string, rest: string)
    requires ':' !in prefix
    ensures Colon(prefix + ":" + rest) == |prefix|
  {
    var s := prefix + ":" + rest;
    if prefix == "" {
      assert s[0] == ':';
    } else {
      assert s[0] == prefix[0] && s[1..] == prefix[1..] + ":" + rest;
      assert prefix == [prefix[0]] + prefix[1..];
      ColonAfterPrefix(prefix[1..], rest);
    }
  }

  /** Parsing a printed error gives it back, for every code and every message. */
  lemma ParsePrint(e: OrbitalError)
    requires IsCode(e.code)
    ensures Parse(Print(e)) == e
  {
    CodesHaveNoColon(e.code, false);
    ColonAfterPrefix(e.code, e.message);
    var s := Print(e);
    assert s[..|e.code|] == e.code && s[|e.code| + 1..] == e.message;
  }

  /** For every text, parsing is stable under printing. */
  lemma ParsePrintParse(s: string)
    ensures Parse(Print(Parse(s))) == Parse(s)
    ensures IsCode(Parse(s).code)
  {
    assert IsCode(DefaultErrorCode) by {
      assert Word(DefaultErrorCode);
      JoinedWordsAreCodes([DefaultErrorCode]);
    }
    ParsePrint(Parse(s));
  }

  // ---- merging task errors ----

  /** mergeOrbitalTaskErrors: the error texts of the failed tasks, in order, joined with a colon. */
  method MergeTaskErrors(taskErrors: seq<string>) returns (message: string)
    ensures message == Join(taskErrors, ':')
  {
    message := "";
    for i := 0 to |taskErrors|
      invariant message == Join(taskErrors[..i], ':')
    {
      JoinSnoc(taskErrors[..i], taskErrors[i], ':');
      assert taskErrors[..i + 1] == taskErrors[..i] + [taskErrors[i]];
      message := if i == 0 then taskErrors[i] else message + ":" + taskErrors[i];
    }
    assert taskErrors[..|taskErrors|] == taskErrors;
  }

  lemma {:induction false} JoinSnoc(parts: seq<string>, last: string, separator: char)
    ensures Join(parts + [last], separator)
            == if parts == [] then last else Join(parts, separator) + [separator] + last
  {
    if |parts| > 1 {
      JoinSnoc(parts[1..], last, separator);
      assert (parts + [last])[1..] == parts[1..] + [last];
      assert Join(parts + [last], separator) == parts[0] + [separator] + Join(parts[1..] + [last], separator);
    } else if |parts| == 1 {
      assert (parts + [last])[1..] == [last];
      assert Join([last], separator) == last;
    } else {
      assert parts + [last] == [last];
    }
  }

  lemma {:induction false} ColonOfPrefix(a: string, b: string)
    requires ':' in a
    ensures Colon(a + b) == Colon(a) < |a|
  {
    assert (a + b)[0] == a[0];
    if a[0] != ':' {
      assert (a + b)[1..] == a[1..] + b;
      assert a == [a[0]] + a[1..];
      ColonOfPrefix(a[1..], b);
    }
  }

  lemma NoColon(s: string)
    ensures Colon(s) == |s| <==> ':' !in s
  {
    assert s[..|s|] == s;
    if Colon(s) < |s| { assert s[Colon(s)] in s; }
  }

  lemma MergedAfterColon(first: string, rest: string)
    requires ':' in first
    ensures Parse(first + ":" + rest).code == Parse(first).code
  {
    NoColon(first);
    ColonOfPrefix(first, ":" + rest);
    assert first + (":" + rest) == first + ":" + rest;
    assert (first + ":" + rest)[..Colon(first)] == first[..Colon(first)];
  }

  lemma MergedAfterPlainText(first: string, rest: string)
    requires ':' !in first
    ensures Parse(first + ":" + rest).code == Parse(first).code <==> !IsCode(first) || first == DefaultErrorCode
  {
    NoColon(first);
    ColonAfterPrefix(first, rest);
    assert (first + ":" + rest)[..|first|] == first;
  }

  /** The merged text keeps the first task's code exactly when the first text has a colon, is alone,
    * is no code itself, or is the default code: a bare code followed by another task's text would
    * otherwise be taken for a code of its own. */
  lemma MergedErrorKeepsFirstCode(taskErrors: seq<string>)
    requires taskErrors != []
    ensures var first := taskErrors[0];
      Parse(Join(taskErrors, ':')).code == Parse(first).code
      <==> ':' in first || |taskErrors| == 1 || !IsCode(first) || first == DefaultErrorCode
  {
    var first := taskErrors[0];
    if |taskErrors| > 1 {
      var rest := Join(taskErrors[1..], ':');
      if ':' in first { MergedAfterColon(first, rest); } else { MergedAfterPlainText(first, rest); }
    }
  }
}
