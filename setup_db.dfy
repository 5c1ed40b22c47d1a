/**
 * The schema import of the database set-up script: the schema text is cut into statements,
 * each statement is sent to the server in order, and failures other than "table exists" and
 * "duplicate entry" are reported.
 */
module SetupDb {
  import opened Seqs
  import opened Text

  /** `.map(s => s.trim())`. */
  function TrimAll(pieces: seq<string>): (r: seq<string>)
    ensures |r| == |pieces|
    ensures forall i :: 0 <= i < |pieces| ==> r[i] == Trim(pieces[i])
  {
    seq(|pieces|, i requires 0 <= i < |pieces| => Trim(pieces[i]))
  }

  predicate NonEmpty(s: string) { s != [] }

  /** A statement as the schema file may hold it: non-empty, trimmed, without a semicolon. */
  predicate IsStatement(s: string) {
    s != [] && !IsJsWhitespace(s[0]) && !IsJsWhitespace(s[|s| - 1]) && ';' !in s
  }

  /** A piece that holds no semicolon, trimmed, is a statement unless it was blank. */
  lemma TrimPiece(piece: string)
    requires ';' !in piece
    ensures Trim(piece) != [] ==> IsStatement(Trim(piece))
  {
    TrimNoSemicolon(piece);
  }

  lemma TrimNoSemicolon(piece: string)
    requires ';' !in piece
    ensures ';' !in Trim(piece)
  {
    TrimChars(piece);
  }

  /** Every non-blank trimmed piece of a split is a statement. */
  lemma {:induction false} TrimAllPieces(pieces: seq<string>)
    requires forall i :: 0 <= i < |pieces| ==> ';' !in pieces[i]
    ensures forall x :: x in TrimAll(pieces) && x != [] ==> IsStatement(x)
  {
    var trimmed := TrimAll(pieces);
    forall x | x in trimmed && x != [] ensures IsStatement(x) {
      var i :| 0 <= i < |trimmed| && trimmed[i] == x;
      TrimPiece(pieces[i]);
    }
  }

  /**
   * The statements of a schema: the pieces between semicolons, trimmed, blank ones dropped,
   * in the order they appear. Each is non-empty, starts and ends with a non-blank character and
   * holds no semicolon; every non-blank trimmed piece is one of them.
   */
  function Statements(schema: string): (r: seq<string>)
    ensures forall i :: 0 <= i < |r| ==> IsStatement(r[i])
    ensures forall x :: x in r <==> x != [] && x in TrimAll(Split(schema, ';'))
  {
    var trimmed := TrimAll(Split(schema, ';'));
    TrimAllPieces(Split(schema, ';'));
    var r := Filter(trimmed, NonEmpty);
    assert forall i :: 0 <= i < |r| ==> r[i] in r;
    r
  }

  /** Trimming whitespace leaves nothing. */
  lemma {:induction false} TrimBlank(s: string)
    requires forall i :: 0 <= i < |s| ==> IsJsWhitespace(s[i])
    ensures Trim(s) == []
  {
  }

  /** The pieces a set of statements and a blank tail are written from hold no semicolon. */
  lemma PiecesHaveNoSemicolon(stmts: seq<string>, tail: string)
    requires forall i :: 0 <= i < |stmts| ==> IsStatement(stmts[i])
    requires forall i :: 0 <= i < |tail| ==> IsJsWhitespace(tail[i])
    ensures forall i :: 0 <= i < |stmts + [tail]| ==> ';' !in (stmts + [tail])[i]
  {
    assert ';' !in tail by {
      assert forall k :: 0 <= k < |tail| ==> tail[k] != ';';
    }
    forall i | 0 <= i < |stmts + [tail]| ensures ';' !in (stmts + [tail])[i] {
      if i < |stmts| {
        assert (stmts + [tail])[i] == stmts[i];
      }
    }
  }

  /** Trimming leaves statements as they are and empties a whitespace tail. */
  lemma TrimAllFixed(stmts: seq<string>, tail: string)
    requires forall i :: 0 <= i < |stmts| ==> IsStatement(stmts[i])
    requires forall i :: 0 <= i < |tail| ==> IsJsWhitespace(tail[i])
    ensures TrimAll(stmts + [tail]) == stmts + [[]]
  {
    forall i | 0 <= i < |stmts| ensures Trim(stmts[i]) == stmts[i] {
      TrimKeeps(stmts[i]);
    }
    TrimBlank(tail);
  }

  /** Dropping blanks from statements followed by one blank gives the statements. */
  lemma {:induction false} DropTrailingBlank(stmts: seq<string>)
    requires forall i :: 0 <= i < |stmts| ==> IsStatement(stmts[i])
    ensures Filter(stmts + [[]], NonEmpty) == stmts
  {
    FilterAppend(stmts, [[]], NonEmpty);
    FilterAll(stmts, NonEmpty);
    assert Filter([[]], NonEmpty) == [];
  }

  /**
   * Writing statements out as `s1;s2;...;sn;` followed by any whitespace and cutting the text
   * again gives back exactly those statements, in their order.
   */
  lemma {:induction false} StatementsRoundTrip(stmts: seq<string>, tail: string)
    requires forall i :: 0 <= i < |stmts| ==> IsStatement(stmts[i])
    requires forall i :: 0 <= i < |tail| ==> IsJsWhitespace(tail[i])
    ensures Statements(Join(stmts + [tail], ';')) == stmts
  {
    PiecesHaveNoSemicolon(stmts, tail);
    SplitUnique(Join(stmts + [tail], ';'), ';', stmts + [tail]);
    TrimAllFixed(stmts, tail);
    DropTrailingBlank(stmts);
  }

  /** What the server answers to one statement. */
  datatype Answer = Done | Failed(code: string, message: string)

  /** The two error codes a re-run expects and passes over in silence. */
  predicate Ignored(code: string) {
    code == "ER_TABLE_EXISTS_ERROR" || code == "ER_DUP_ENTRY"
  }

  predicate Reported(a: Answer) {
    a.Failed? && !Ignored(a.code)
  }

  /** One error line: the first fifty characters of the statement, an ellipsis, and the message. */
  datatype ErrorLine = ErrorLine(excerpt: string, message: string)

  /**
   * `statement.substring(0, 50) + '...'`: the characters within the first fifty UTF-16 code
   * units, then an ellipsis. For text inside the Basic Multilingual Plane that is the first fifty
   * characters.
   */
  function Excerpt(statement: string): (e: string)
    ensures |e| >= 3 && e[|e| - 3..] == "..."
    ensures var kept := e[..|e| - 3];
      |kept| <= |statement| && kept == statement[..|kept|] && Utf16Length(kept) <= 50 &&
      (|kept| < |statement| ==> Utf16Length(statement[..|kept| + 1]) > 50)
    ensures (forall i :: 0 <= i < |statement| ==> statement[i] as int < 0x10000) ==>
      |e| == (if |statement| < 50 then |statement| else 50) + 3
  {
    var kept := Utf16Prefix(statement, 50);
    Utf16PrefixFits(statement, 50);
    Utf16PrefixLongest(statement, 50);
    assert (forall i :: 0 <= i < |statement| ==> statement[i] as int < 0x10000) ==>
      |kept| == if |statement| < 50 then |statement| else 50 by {
      if forall i :: 0 <= i < |statement| ==> statement[i] as int < 0x10000 {
        Utf16PrefixBmp(statement, 50);
      }
    }
    assert (kept + "...")[..|kept|] == kept;
    kept + "..."
  }

  /** The error lines for the given statements and the server's answers to them, in order. */
  function ErrorLines(stmts: seq<string>, answers: seq<Answer>): (r: seq<ErrorLine>)
    requires |answers| == |stmts|
    ensures |r| <= |stmts|
  {
    if stmts == [] then []
    else
      var rest := ErrorLines(stmts[1..], answers[1..]);
      if Reported(answers[0]) then [ErrorLine(Excerpt(stmts[0]), answers[0].message)] + rest else rest
  }

  /** The import writes no error line exactly when every failure is one a re-run expects. */
  lemma {:induction false} ErrorLinesQuiet(stmts: seq<string>, answers: seq<Answer>)
    requires |answers| == |stmts|
    ensures ErrorLines(stmts, answers) == [] <==> forall i :: 0 <= i < |stmts| ==> !Reported(answers[i])
  {
    if stmts != [] {
      ErrorLinesQuiet(stmts[1..], answers[1..]);
      assert forall i :: 0 <= i < |stmts[1..]| ==> answers[1..][i] == answers[i + 1];
    }
  }

  /** Every error line is the excerpt and message of a statement whose failure is reported. */
  lemma {:induction false} ErrorLinesReported(stmts: seq<string>, answers: seq<Answer>)
    requires |answers| == |stmts|
    ensures forall line :: line in ErrorLines(stmts, answers) ==>
      exists i :: 0 <= i < |stmts| && Reported(answers[i]) &&
        line == ErrorLine(Excerpt(stmts[i]), answers[i].message)
  {
    if stmts != [] {
      ErrorLinesReported(stmts[1..], answers[1..]);
      forall line | line in ErrorLines(stmts[1..], answers[1..])
        ensures exists i :: 0 <= i < |stmts| && Reported(answers[i]) && line == ErrorLine(Excerpt(stmts[i]), answers[i].message)
      {
        var j :| 0 <= j < |stmts[1..]| && Reported(answers[1..][j]) &&
          line == ErrorLine(Excerpt(stmts[1..][j]), answers[1..][j].message);
        assert stmts[1..][j] == stmts[j + 1] && answers[1..][j] == answers[j + 1];
      }
    }
  }

  /** `ErrorLines` over a prefix grows by the line, if any, of the next statement. */
  lemma {:induction false} ErrorLinesSnoc(stmts: seq<string>, answers: seq<Answer>, n: nat)
    requires |answers| == |stmts| && n < |stmts|
    ensures ErrorLines(stmts[..n + 1], answers[..n + 1]) ==
      ErrorLines(stmts[..n], answers[..n]) +
        (if Reported(answers[n]) then [ErrorLine(Excerpt(stmts[n]), answers[n].message)] else [])
  {
    if n > 0 {
      assert stmts[..n + 1][1..] == stmts[1..][..n];
      assert answers[..n + 1][1..] == answers[1..][..n];
      assert stmts[..n][1..] == stmts[1..][..n - 1];
      assert answers[..n][1..] == answers[1..][..n - 1];
      ErrorLinesSnoc(stmts[1..], answers[1..], n - 1);
    }
  }

  /**
   * The import loop: every statement is sent, in order, whatever happened to the one before;
   * `answers[i]` is the server's answer to the `i`-th. Returns the statements sent and the
   * error lines written.
   */
  method ImportSchema(stmts: seq<string>, answers: seq<Answer>) returns (sent: seq<string>, errors: seq<ErrorLine>)
    requires |answers| == |stmts|
    ensures sent == stmts
    ensures errors == ErrorLines(stmts, answers)
  {
    sent := [];
    errors := [];
    for i := 0 to |stmts|
      invariant sent == stmts[..i]
      invariant errors == ErrorLines(stmts[..i], answers[..i])
    {
      sent := sent + [stmts[i]];
      ErrorLinesSnoc(stmts, answers, i);
      var answer := answers[i];
      if answer.Failed? && answer.code != "ER_TABLE_EXISTS_ERROR" && answer.code != "ER_DUP_ENTRY" {
        errors := errors + [ErrorLine(Excerpt(stmts[i]), answer.message)];
      }
    }
    assert stmts[..|stmts|] == stmts && answers[..|stmts|] == answers;
  }
}
