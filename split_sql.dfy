/** The migration script's statement splitter
    (scripts/migrate_add_fulltext_search.py): SQL text is cut at every ';'
    that is not inside a `$$ ... $$` block, each piece is stripped, and the
    blank pieces are dropped. Reading the migration file and executing the
    statements is not modelled. */
module SplitSql {
  import opened Text

  /** The raw pieces the scanner cuts `s` into when it starts inside
      (`inDollar`) or outside a `$$` block: a "$$" toggles the block and
      stays in the piece, a ';' outside a block ends the piece and is
      dropped, every other character stays. There is always a last piece
      (possibly empty). */
  function Segments(s: string, inDollar: bool): (r: seq<string>)
    ensures |r| >= 1
    decreases |s|
  {
    if s == [] then [[]]
    else if |s| >= 2 && s[0] == '$' && s[1] == '$' then
      var rest := Segments(s[2..], !inDollar);
      ["$$" + rest[0]] + rest[1..]
    else if s[0] == ';' && !inDollar then
      [[]] + Segments(s[1..], inDollar)
    else
      var rest := Segments(s[1..], inDollar);
      [[s[0]] + rest[0]] + rest[1..]
  }

  /** `stmt.strip()` of each piece, keeping only the non-blank ones. */
  function Kept(pieces: seq<string>): (r: seq<string>)
    ensures |r| <= |pieces|
    ensures forall k :: 0 <= k < |r| ==> r[k] != [] && IsTrimmed(r[k])
  {
    if pieces == [] then []
    else
      var stmt := Strip(pieces[0]);
      (if stmt != [] then [stmt] else []) + Kept(pieces[1..])
  }

  /** What `split_sql(s)` returns. */
  function Statements(s: string): (r: seq<string>)
    ensures forall k :: 0 <= k < |r| ==> r[k] != [] && IsTrimmed(r[k])
    ensures |r| <= Count(s, ';') + 1
  {
    SegmentsCount(s, false);
    Kept(Segments(s, false))
  }

  /** Each piece but the last ends at a ';'. */
  lemma {:induction false} SegmentsCount(s: string, inDollar: bool)
    ensures |Segments(s, inDollar)| <= Count(s, ';') + 1
    decreases |s|
  {
    if s == [] {
    } else if |s| >= 2 && s[0] == '$' && s[1] == '$' {
      SegmentsCount(s[2..], !inDollar);
      assert s[2..] == s[1..][1..];
    } else {
      SegmentsCount(s[1..], inDollar);
    }
  }

  /** `split_sql`: the scan over `i`, with the `in_dollar` flag and the
      current statement `buff` (the list of fragments is kept as their
      concatenation, which is all `"".join(buff)` ever reads). */
  method SplitStatements(sqlText: string) returns (statements: seq<string>)
    ensures statements == Statements(sqlText)
    ensures forall k :: 0 <= k < |statements| ==> statements[k] != [] && IsTrimmed(statements[k])
  {
    statements := [];
    var buff: string := [];
    var inDollar := false;
    var i := 0;
    assert sqlText[i..] == sqlText;
    PendingEmpty(Segments(sqlText, false));
    while i < |sqlText|
      invariant 0 <= i <= |sqlText|
      invariant Statements(sqlText) == statements + Kept(Pending(buff, Segments(sqlText[i..], inDollar)))
      decreases |sqlText| - i
    {
      var ch := sqlText[i];
      if ch == '$' && i + 1 < |sqlText| && sqlText[i..i + 2] == "$$" {
        StepDollar(sqlText, i, inDollar, buff);
        inDollar := !inDollar;
        buff := buff + "$$";
        i := i + 2;
        continue;
      }
      if ch == ';' && !inDollar {
        StepSemicolon(sqlText, i, inDollar, buff);
        ghost var later := Kept(Pending([], Segments(sqlText[i + 1..], inDollar)));
        var stmt := Strip(buff);
        if stmt != [] {
          AppendAssoc(statements, [stmt], later);
          statements := statements + [stmt];
        } else {
          assert [] + later == later;
        }
        buff := [];
      } else {
        StepOther(sqlText, i, inDollar, buff);
        buff := buff + [ch];
      }
      i := i + 1;
    }
    StepEnd(sqlText, i, inDollar, buff);
    var tail := Strip(buff);
    if tail != [] {
      statements := statements + [tail];
    }
  }

  /** The pieces still to come when `buff` has been read and `pieces` are
      the pieces of the unread text. */
  function Pending(buff: string, pieces: seq<string>): seq<string>
    requires pieces != []
  {
    [buff + pieces[0]] + pieces[1..]
  }

  lemma AppendAssoc(a: seq<string>, b: seq<string>, c: seq<string>)
    ensures a + (b + c) == (a + b) + c
  {
  }

  lemma PendingEmpty(pieces: seq<string>)
    requires pieces != []
    ensures Pending([], pieces) == pieces
  {
    assert [] + pieces[0] == pieces[0];
    assert pieces == [pieces[0]] + pieces[1..];
  }

  lemma KeptCons(p: string, rest: seq<string>)
    ensures Kept([p] + rest) == (if Strip(p) != [] then [Strip(p)] else []) + Kept(rest)
  {
    assert ([p] + rest)[1..] == rest;
  }

  lemma StepDollar(s: string, i: nat, inDollar: bool, buff: string)
    requires i + 1 < |s| && s[i..i + 2] == "$$"
    ensures Pending(buff, Segments(s[i..], inDollar))
         == Pending(buff + "$$", Segments(s[i + 2..], !inDollar))
  {
    var t := s[i..];
    assert t[0] == '$' && t[1] == '$';
    assert t[2..] == s[i + 2..];
    var rest := Segments(s[i + 2..], !inDollar);
    assert buff + ("$$" + rest[0]) == buff + "$$" + rest[0];
  }

  lemma StepSemicolon(s: string, i: nat, inDollar: bool, buff: string)
    requires i < |s| && s[i] == ';' && !inDollar
    ensures Kept(Pending(buff, Segments(s[i..], inDollar)))
         == (if Strip(buff) != [] then [Strip(buff)] else []) + Kept(Pending([], Segments(s[i + 1..], inDollar)))
  {
    var t := s[i..];
    assert t[1..] == s[i + 1..];
    var rest := Segments(s[i + 1..], inDollar);
    assert Segments(t, inDollar) == [[]] + rest;
    assert Pending(buff, [[]] + rest) == [buff] + rest by {
      assert buff + [] == buff;
      assert ([[]] + rest)[1..] == rest;
    }
    PendingEmpty(rest);
    KeptCons(buff, rest);
  }

  lemma StepOther(s: string, i: nat, inDollar: bool, buff: string)
    requires i < |s|
    requires !(s[i] == '$' && i + 1 < |s| && s[i..i + 2] == "$$")
    requires !(s[i] == ';' && !inDollar)
    ensures Pending(buff, Segments(s[i..], inDollar))
         == Pending(buff + [s[i]], Segments(s[i + 1..], inDollar))
  {
    var t := s[i..];
    assert t[1..] == s[i + 1..];
    assert |t| >= 2 ==> t[..2] == s[i..i + 2];
    var rest := Segments(s[i + 1..], inDollar);
    assert buff + ([s[i]] + rest[0]) == buff + [s[i]] + rest[0];
  }

  lemma StepEnd(s: string, i: nat, inDollar: bool, buff: string)
    requires i == |s|
    ensures Kept(Pending(buff, Segments(s[i..], inDollar)))
         == if Strip(buff) != [] then [Strip(buff)] else []
  {
    assert s[i..] == [];
    assert buff + [] == buff;
    KeptCons(buff, []);
  }

  /** Nothing is lost but the separating ';'s: joining the pieces with ';'
      gives back the text. */
  lemma {:induction false} SegmentsJoin(s: string, inDollar: bool)
    ensures Join(";", Segments(s, inDollar)) == s
    decreases |s|
  {
    if s == [] {
    } else if |s| >= 2 && s[0] == '$' && s[1] == '$' {
      SegmentsJoin(s[2..], !inDollar);
      JoinPrepend(";", "$$", Segments(s[2..], !inDollar));
      assert s == "$$" + s[2..];
    } else if s[0] == ';' && !inDollar {
      SegmentsJoin(s[1..], inDollar);
      var rest := Segments(s[1..], inDollar);
      assert ([[]] + rest)[1..] == rest;
      assert s == [] + ";" + s[1..];
    } else {
      SegmentsJoin(s[1..], inDollar);
      JoinPrepend(";", [s[0]], Segments(s[1..], inDollar));
      assert s == [s[0]] + s[1..];
    }
  }

  /** No "$$" occurs in `s`: a single '$' (as in a positional parameter
      `$1`) is an ordinary character to the splitter. */
  predicate NoDoubleDollar(s: string) {
    forall i :: 0 <= i < |s| - 1 ==> !(s[i] == '$' && s[i + 1] == '$')
  }

  /** Without any "$$" the splitter is `s.split(";")`. */
  lemma {:induction false} SegmentsWithoutDollar(s: string)
    requires NoDoubleDollar(s)
    ensures Segments(s, false) == Split(s, ';')
  {
    if s != [] {
      assert |s| >= 2 ==> !(s[0] == '$' && s[1] == '$');
      assert NoDoubleDollar(s[1..]);
      SegmentsWithoutDollar(s[1..]);
    }
  }

  /** Without any "$$", `split_sql` strips the pieces of `s.split(";")` and
      drops the blank ones. */
  lemma StatementsWithoutDollar(s: string)
    requires NoDoubleDollar(s)
    ensures Statements(s) == Kept(Split(s, ';'))
  {
    SegmentsWithoutDollar(s);
  }

  /** Inside a block that is never closed, everything left, ';' included,
      belongs to one piece. */
  lemma UnclosedBlock(s: string)
    requires NoDoubleDollar(s)
    ensures Segments(s, true) == [s]
  {
    PlainPrefix(s, [], true);
    assert s + [] == s;
  }

  /** Text with no "$$" (and, outside a block, no ';') is copied into the
      current piece, provided a '$' that ends it is not followed by another. */
  lemma {:induction false} PlainPrefix(x: string, rest: string, inDollar: bool)
    requires NoDoubleDollar(x)
    requires !inDollar ==> ';' !in x
    requires x != [] && x[|x| - 1] == '$' ==> rest == [] || rest[0] != '$'
    ensures Segments(x + rest, inDollar)
         == [x + Segments(rest, inDollar)[0]] + Segments(rest, inDollar)[1..]
    decreases |x|
  {
    if x == [] {
      assert x + rest == rest;
      PendingEmpty(Segments(rest, inDollar));
    } else {
      var t := x[1..] + rest;
      assert x + rest == [x[0]] + t;
      assert x[0] == '$' ==> t == [] || t[0] != '$' by {
        if |x| >= 2 {
          assert t[0] == x[1];
        }
      }
      PlainStep(x[0], t, inDollar);
      NoDoubleDollarTail(x);
      PlainPrefix(x[1..], rest, inDollar);
      var r := Segments(rest, inDollar);
      assert x == [x[0]] + x[1..];
      ConcatAssoc([x[0]], x[1..], r[0]);
    }
  }

  lemma ConcatAssoc<T>(a: seq<T>, b: seq<T>, c: seq<T>)
    ensures a + (b + c) == a + b + c
  {
  }

  lemma ConcatAssoc5<T>(a: seq<T>, b: seq<T>, c: seq<T>, d: seq<T>, e: seq<T>)
    ensures a + (b + (c + d + e)) == a + b + c + d + e
  {
  }

  /** One ordinary character joins the current piece. */
  lemma PlainStep(c: char, t: string, inDollar: bool)
    requires c == '$' ==> t == [] || t[0] != '$'
    requires c == ';' ==> inDollar
    ensures Segments([c] + t, inDollar) == [[c] + Segments(t, inDollar)[0]] + Segments(t, inDollar)[1..]
  {
    assert ([c] + t)[1..] == t;
  }

  lemma NoDoubleDollarTail(x: string)
    requires x != [] && NoDoubleDollar(x)
    ensures NoDoubleDollar(x[1..])
    ensures |x| >= 2 ==> !(x[0] == '$' && x[1] == '$')
  {
    forall i | 0 <= i < |x[1..]| - 1
      ensures !(x[1..][i] == '$' && x[1..][i + 1] == '$')
    {
      assert x[1..][i] == x[i + 1] && x[1..][i + 1] == x[i + 2];
    }
  }

  lemma DollarPrefix(rest: string, inDollar: bool)
    ensures Segments("$$" + rest, inDollar)
         == ["$$" + Segments(rest, !inDollar)[0]] + Segments(rest, !inDollar)[1..]
  {
    assert ("$$" + rest)[2..] == rest;
  }

  /** A last piece with no "$$" and no ';' stays whole. */
  lemma LastPiece(tail: string)
    requires NoDoubleDollar(tail) && ';' !in tail
    ensures Segments(tail, false) == [tail]
  {
    PlainPrefix(tail, [], false);
    assert tail + [] == tail;
  }

  /** Inside a block, text up to the closing "$$" and a plain tail after it
      stay in one piece. The body must not end in '$', or the closing "$$"
      would start one character earlier. */
  lemma ClosedBlock(body: string, tail: string)
    requires NoDoubleDollar(body) && (body == [] || body[|body| - 1] != '$')
    requires NoDoubleDollar(tail) && ';' !in tail
    ensures Segments(body + "$$" + tail, true) == [body + "$$" + tail]
  {
    LastPiece(tail);
    DollarPrefix(tail, true);
    PlainPrefix(body, "$$" + tail, true);
    ConcatAssoc(body, "$$", tail);
  }

  /** A `$$ ... $$` block keeps the ';'s inside it: a statement made of a
      head, a block and a tail (with no ';' outside the block) is one piece. */
  lemma DollarBlockKept(head: string, body: string, tail: string)
    requires NoDoubleDollar(head) && (head == [] || head[|head| - 1] != '$')
    requires NoDoubleDollar(body) && (body == [] || body[|body| - 1] != '$')
    requires NoDoubleDollar(tail)
    requires ';' !in head && ';' !in tail
    ensures Segments(head + "$$" + body + "$$" + tail, false) == [head + "$$" + body + "$$" + tail]
  {
    var closed := body + "$$" + tail;
    ClosedBlock(body, tail);
    DollarPrefix(closed, false);
    PlainPrefix(head, "$$" + closed, false);
    ConcatAssoc5(head, "$$", body, "$$", tail);
  }
}
