/** The id pattern of src/component_handlers/ExampleComponentHandler.ts:
    `/^example_.+$/`, with no flags.  `^` and `$` anchor at the start and end
    of the whole id (no `m` flag), and `.` matches one character other than a
    line terminator (no `s` flag).  Without `g` or `y` the pattern keeps no
    `lastIndex`, so testing it is a pure function of the id. */
module ExampleComponentHandler {
  import opened Wrappers
  import ComponentRouter

  const Prefix: string := "example_"

  /** The four characters ECMAScript calls line terminators. */
  predicate IsLineTerminator(c: char)
  {
    c == '\n' || c == '\r' || c == '\U{2028}' || c == '\U{2029}'
  }

  predicate NoLineTerminator(t: string)
  {
    forall i :: 0 <= i < |t| ==> !IsLineTerminator(t[i])
  }

  /** The language of the regular expression: the literal prefix at position
      0, then one or more characters that `.` accepts, up to the end. */
  predicate Matches(s: string)
  {
    |s| > |Prefix| && s[..|Prefix|] == Prefix && NoLineTerminator(s[|Prefix|..])
  }

  /** The `pattern` export, as the router sees it. */
  const pattern: ComponentRouter.Pattern := Matches

  /** The ids the pattern accepts are exactly `"example_"` followed by a
      non-empty run of non-line-terminator characters. */
  lemma AcceptsExactly(t: string)
    ensures Matches(Prefix + t) <==> |t| > 0 && NoLineTerminator(t)
  {
    assert (Prefix + t)[..|Prefix|] == Prefix;
    assert (Prefix + t)[|Prefix|..] == t;
  }

  /** An id that does not start with `"example_"` at position 0 is rejected. */
  lemma RejectsWithoutPrefix(s: string)
    requires |s| < |Prefix| || s[..|Prefix|] != Prefix
    ensures !Matches(s)
  {
  }

  /** `.+` needs at least one character after the prefix. */
  lemma RejectsBarePrefix()
    ensures !Matches("example_")
  {
  }

  /** The `^` anchor: neither an id with another prefix nor one with the
      prefix shifted by a character is accepted. */
  lemma RejectsOtherIds()
    ensures !Matches("other_id")
    ensures !Matches("xexample_a")
  {
    assert "xexample_a"[..|Prefix|] != Prefix by {
      assert "xexample_a"[0] != Prefix[0];
    }
  }

  /** A line terminator anywhere after the prefix defeats `.` and `$`. */
  lemma RejectsLineTerminator(t: string, i: nat)
    requires i < |t| && IsLineTerminator(t[i])
    ensures !Matches(Prefix + t)
  {
    AcceptsExactly(t);
  }

  /** The custom id set on the button of
      src/commands/ExampleContextMenuCommand.ts is accepted. */
  lemma AcceptsAcknowledgeButton()
    ensures Matches("example_ACKNOWLEDGE")
  {
    var t := "ACKNOWLEDGE";
    assert "example_ACKNOWLEDGE" == Prefix + t;
    AcceptsExactly(t);
  }

  /** The button of the context-menu command is routed to the handler whose
      pattern this is, when that handler is registered first. */
  lemma AcknowledgeButtonRoutes(hs: seq<ComponentRouter.ComponentHandler>)
    requires |hs| > 0 && hs[0].pattern == pattern
    ensures ComponentRouter.HandlerFor(hs, "example_ACKNOWLEDGE") == Some(hs[0])
  {
    AcceptsAcknowledgeButton();
  }

  /** With this pattern as the only one registered, an id without the prefix
      finds no handler. */
  lemma OtherIdFindsNoHandler(h: ComponentRouter.ComponentHandler)
    requires h.pattern == pattern
    ensures ComponentRouter.HandlerFor([h], "other_id") == None
  {
    RejectsOtherIds();
  }

  // The way `test` evaluates the compiled pattern, one character at a time.

  /** `InPrefix(k)`: the first `k` characters of the literal were read;
      `Tail`: the literal and at least one `.` were read; `Dead`: no match. */
  datatype MatchState = InPrefix(k: nat) | Tail | Dead

  function Step(st: MatchState, c: char): MatchState
  {
    match st
    case InPrefix(k) =>
      if k < |Prefix| then (if c == Prefix[k] then InPrefix(k + 1) else Dead)
      else if !IsLineTerminator(c) then Tail else Dead
    case Tail => if !IsLineTerminator(c) then Tail else Dead
    case Dead => Dead
  }

  function Run(st: MatchState, s: string): MatchState
    decreases |s|
  {
    if |s| == 0 then st else Run(Step(st, s[0]), s[1..])
  }

  /** `pattern.test(s)`: read the whole id from the start; `$` holds only if
      the scan ends in the accepting state. */
  predicate Test(s: string)
  {
    Run(InPrefix(0), s) == Tail
  }

  lemma {:induction false} RunDead(s: string)
    ensures Run(Dead, s) == Dead
  {
    if |s| > 0 { RunDead(s[1..]); }
  }

  lemma {:induction false} RunTail(s: string)
    ensures Run(Tail, s) == Tail <==> NoLineTerminator(s)
  {
    if |s| > 0 {
      RunTail(s[1..]);
      if IsLineTerminator(s[0]) {
        RunDead(s[1..]);
      } else {
        assert NoLineTerminator(s) <==> NoLineTerminator(s[1..]) by {
          assert forall i :: 0 < i < |s| ==> s[i] == s[1..][i - 1];
        }
      }
    }
  }

  /** What remains to be read, once `k` characters of the literal were: the
      rest of the literal, then a non-empty run of non-line-terminators. */
  predicate AcceptsFrom(k: nat, s: string)
    requires k <= |Prefix|
  {
    |s| > |Prefix| - k && s[..|Prefix| - k] == Prefix[k..] && NoLineTerminator(s[|Prefix| - k..])
  }

  lemma PrefixShift(k: nat, s: string)
    requires k < |Prefix| && |s| > 0 && s[0] == Prefix[k]
    ensures AcceptsFrom(k, s) <==> AcceptsFrom(k + 1, s[1..])
  {
    var n := |Prefix| - k;
    var rest := s[1..];
    if |s| > n {
      assert s[..n] == [s[0]] + rest[..n - 1];
      assert Prefix[k..] == [Prefix[k]] + Prefix[k + 1..];
      assert s[n..] == rest[n - 1..];
    }
  }

  lemma PrefixMismatch(k: nat, s: string)
    requires k < |Prefix| && |s| > 0 && s[0] != Prefix[k]
    ensures !AcceptsFrom(k, s)
  {
    var n := |Prefix| - k;
    if |s| > n {
      assert s[..n][0] != Prefix[k..][0];
    }
  }

  lemma TailShift(s: string)
    requires |s| > 0 && !IsLineTerminator(s[0])
    ensures AcceptsFrom(|Prefix|, s) <==> NoLineTerminator(s[1..])
  {
    assert forall i :: 0 < i < |s| ==> s[i] == s[1..][i - 1];
  }

  /** From `InPrefix(k)`, the scan accepts exactly the rest of the literal
      followed by a non-empty run of non-line-terminators. */
  lemma {:induction false} RunPrefix(k: nat, s: string)
    requires k <= |Prefix|
    decreases |s|
    ensures Run(InPrefix(k), s) == Tail <==> AcceptsFrom(k, s)
  {
    if |s| > 0 {
      var rest := s[1..];
      if k < |Prefix| {
        if s[0] == Prefix[k] {
          RunPrefix(k + 1, rest);
          PrefixShift(k, s);
        } else {
          RunDead(rest);
          PrefixMismatch(k, s);
        }
      } else if IsLineTerminator(s[0]) {
        RunDead(rest);
      } else {
        RunTail(rest);
        TailShift(s);
      }
    }
  }

  /** The character-by-character evaluation agrees with the language of the
      expression on every id. */
  lemma TestMatches(s: string)
    ensures Test(s) <==> Matches(s)
  {
    RunPrefix(0, s);
  }
}
