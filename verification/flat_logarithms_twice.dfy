/** When rewriting flat logarithms twice is rewriting them once: the condition on the text itself. */
module FlatLogarithmsTwice {
  import opened Common
  import opened Rewriting
  import opened FlatLogarithms

  /** The base is nothing but braces, and is dropped. */
  predicate Blank(s: string, place: Place)
    requires Fits(s, place)
  {
    WithoutBraces(BaseOf(s[place.p..place.m])) == []
  }

  /** The rewritten places from `at` on all have such bases. */
  predicate AllBlank(s: string, at: nat)
    requires at <= |s|
    decreases |s| - at
  {
    at < |s| ==>
      match CallAt(s, at)
      case None => AllBlank(s, at + 1)
      case Some(place) => Blank(s, place) && AllBlank(s, place.q)
  }

  predicate WordBefore(s: string, p: nat)
    requires p <= |s|
  {
    p > 0 && IsWord(s[p - 1])
  }

  const BARE: string := "$\\log_{}("

  lemma BareChars()
    ensures |BARE| == 9 && BARE[0] == '$' && BARE[1] == '\\' && BARE[2] == 'l' && BARE[3] == 'o' && BARE[4] == 'g'
    ensures BARE[5] == '_' && BARE[6] == '{' && BARE[7] == '}' && BARE[8] == '('
  {
  }

  /** A blank call stands in the output at `t` as `$\log_{}(`, its argument with the closing parenthesis, and `$`. */
  ghost predicate Written(s: string, place: Place, out: string, t: nat)
    requires Fits(s, place)
  {
    var Place(p, m, q) := place;
    && t + 9 + (q - m) <= |out|
    && out[t] == '$' && out[t + 1] == '\\' && out[t + 2] == 'l' && out[t + 3] == 'o' && out[t + 4] == 'g'
    && out[t + 5] == '_' && out[t + 6] == '{' && out[t + 7] == '}' && out[t + 8] == '('
    && out[t + 9..t + 9 + (q - m - 1)] == s[m + 1..q]
    && out[t + 9 + (q - m - 1)] == '$'
  }


  lemma FindIn(s: string, i: nat, e: nat, a: char, b: char)
    requires i <= e < |s| && (s[e] == a || s[e] == b) && forall k :: i <= k < e ==> s[k] != a && s[k] != b
    ensures FindEither(s, i, a, b) == e
  {
    FindEitherAt(s, i, e, a, b);
  }

  /** The head of a blank call: "log", perhaps an underscore, opening braces and one closing brace. */
  lemma {:induction false} BlankIsBraces(base: string, i: nat)
    requires WithoutBraces(base) == [] && i < |base|
    ensures base[i] == '{' || base[i] == '}'
    decreases |base|
  {
    if i > 0 {
      BlankIsBraces(base[1..], i - 1);
    }
  }

  lemma BaseOfHead(s: string, p: nat, m: nat)
    requires LogAt(s, p) && BaseStart(s, p) < m <= |s|
    ensures BaseOf(s[p..m]) == s[BaseStart(s, p)..m]
  {
    var head := s[p..m];
    assert head[3] == s[p + 3];
  }

  /** A call whose head is "log", perhaps an underscore, opening braces and one closing brace. */
  ghost predicate BareCall(s: string, place: Place) {
    var Place(p, m, q) := place;
    && p + 3 < m && m + 1 < q <= |s| && s[m - 1] == '}' && s[m] == '(' && s[q - 1] == ')'
    && (forall i :: p < i <= m ==> s[i] != 'l')
    && (forall i :: p <= i < m - 1 ==> s[i] != '}' && s[i] != '(' && s[i] != ')')
    && NoneOf(s, m + 1, q - 1, '(', ')')
  }

  lemma BlankBase(s: string, p: nat, m: nat, i: nat)
    requires LogAt(s, p) && BaseStart(s, p) <= i < m <= |s| && WithoutBraces(BaseOf(s[p..m])) == []
    ensures s[i] == '{' || s[i] == '}'
  {
    var b := BaseStart(s, p);
    BaseOfHead(s, p, m);
    BlankIsBraces(s[b..m], i - b);
    assert s[b..m][i - b] == s[i];
  }

  lemma BracedBase(s: string, b: nat, m: nat)
    requires b < |s| && BaseEnd(s, b) == Some(m) && s[b] == '{'
    ensures b + 2 < m <= |s| && s[m - 1] == '}' && NoneOf(s, b + 1, m - 1, '}', '}')
  {
    FindEitherIs(s, b + 1, '}', '}');
  }

  lemma BlankHead(s: string, place: Place)
    requires place.p <= |s| && CallAt(s, place.p) == Some(place) && Blank(s, place)
    ensures BareCall(s, place)
  {
    var Place(p, m, q) := place;
    var b := BaseStart(s, p);
    assert LogAt(s, p) && BaseEnd(s, b) == Some(m);
    FindEitherIs(s, m + 1, '(', ')');
    BlankBases(s, p, m);
    assert s[b] == '{';
    BracedBase(s, b, m);
    BareHead(s, p, b, m);
  }

  /** Before its parenthesis such a call has no second 'l', and no parenthesis or closing brace before its last
      brace. */
  lemma BareHead(s: string, p: nat, b: nat, m: nat)
    requires LogAt(s, p) && b == BaseStart(s, p) && b + 2 < m < |s| && s[m] == '(' && NoneOf(s, b + 1, m - 1, '}', '}')
    requires s[b] == '{' && forall i :: b <= i < m ==> s[i] == '{' || s[i] == '}'
    ensures forall i :: p < i <= m ==> s[i] != 'l'
    ensures forall i :: p <= i < m - 1 ==> s[i] != '}' && s[i] != '(' && s[i] != ')'
  {
    forall i | p <= i < b
      ensures (i > p ==> s[i] != 'l') && s[i] != '}' && s[i] != '(' && s[i] != ')'
    {
      assert i == p || i == p + 1 || i == p + 2 || s[i] == '_';
    }
  }

  lemma BlankBases(s: string, p: nat, m: nat)
    requires LogAt(s, p) && m <= |s| && BaseStart(s, p) < m && WithoutBraces(BaseOf(s[p..m])) == []
    ensures forall i :: BaseStart(s, p) <= i < m ==> s[i] == '{' || s[i] == '}'
  {
    forall i | BaseStart(s, p) <= i < m
      ensures s[i] == '{' || s[i] == '}'
    {
      BlankBase(s, p, m, i);
    }
  }

  lemma SpliceCall(s: string, at: nat, place: Place, f: Rewrite)
    requires at < |s| && CallAt(s, at) == Some(place)
    ensures InOrder(s, place.q, Calls(s, place.q)) && InOrder(s, at, Calls(s, at))
    ensures Splice(s, at, Calls(s, at), f) ==
            f(s[place.p..place.m], s[place.m + 1..place.q]) + Splice(s, place.q, Calls(s, place.q), f)
  {
    CallsInOrder(s, place.q);
    SpliceHere(s, place, Calls(s, place.q), f);
  }

  /** For a blank call `f` writes the bare form. */
  ghost predicate WritesBare(f: Rewrite) {
    forall head, tail :: WithoutBraces(BaseOf(head)) == [] ==> f(head, tail) == BARE + tail + CLOSE
  }

  lemma IsWritten(s: string, place: Place, out: string, t: nat)
    requires Fits(s, place)
    requires var n := place.q - place.m - 1;
             && t + 10 + n <= |out| && out[t + 9..t + 9 + n] == s[place.m + 1..place.q] && out[t + 9 + n] == '$'
             && forall i :: 0 <= i < 9 ==> out[t + i] == BARE[i]
    ensures Written(s, place, out, t)
  {
    BareChars();
    assert out[t] == out[t + 0];
  }

  lemma WrittenAt(out: string, t: nat, tail: string, rest: string)
    requires t <= |out| && out[t..] == BARE + tail + CLOSE + rest
    ensures t + 10 + |tail| <= |out| && out[t + 10 + |tail|..] == rest
    ensures out[t..t + 9] == BARE && out[t + 9..t + 9 + |tail|] == tail && out[t + 9 + |tail|] == '$'
    ensures forall i :: 0 <= i < 9 ==> out[t + i] == BARE[i]
  {
    BareChars();
    var all := BARE + tail + CLOSE + rest;
    assert all[..9] == BARE && all[9..9 + |tail|] == tail && all[9 + |tail|] == '$' && all[10 + |tail|..] == rest;
    assert out[t..t + 9] == out[t..][..9];
    assert out[t + 9..t + 9 + |tail|] == out[t..][9..9 + |tail|];
    assert out[t + 10 + |tail|..] == out[t..][10 + |tail|..];
    forall i | 0 <= i < 9
      ensures out[t + i] == BARE[i]
    {
      assert out[t + i] == out[t..t + 9][i];
    }
  }

  /** `out` from `t` on is what the rewriting makes of `s` from `at` on, all rewritten calls being bare. */
  ghost predicate Follows(s: string, at: nat, out: string, t: nat)
    decreases |s| - at
  {
    && at <= |s| && t <= |out|
    && if at == |s| then t == |out|
       else
         match CallAt(s, at)
         case None => t < |out| && out[t] == s[at] && Follows(s, at + 1, out, t + 1)
         case Some(place) =>
           BareCall(s, place) && Written(s, place, out, t) && Follows(s, place.q, out, t + 9 + (place.q - place.m))
  }

  /** `out` from `t` on is the text from `at` on with its calls rewritten. */
  ghost predicate Spliced(s: string, at: nat, out: string, t: nat, f: Rewrite) {
    at <= |s| && t <= |out| && InOrder(s, at, Calls(s, at)) && out[t..] == Splice(s, at, Calls(s, at), f)
  }

  lemma LogWritesBare()
    ensures WritesBare(Log)
  {
    assert OPEN + [] + MIDDLE == BARE;
  }

  lemma CopiesChar(s: string, at: nat, out: string, t: nat, f: Rewrite)
    requires at < |s| && CallAt(s, at).None? && Spliced(s, at, out, t, f)
    ensures t < |out| && out[t] == s[at] && Spliced(s, at + 1, out, t + 1, f)
  {
    CallsInOrder(s, at + 1);
    SpliceLater(s, at, Calls(s, at + 1), f);
    NextChar(out, t, s[at], Splice(s, at + 1, Calls(s, at + 1), f));
  }

  lemma CallIsNext(s: string, at: nat, out: string, t: nat, place: Place, f: Rewrite)
    requires at < |s| && CallAt(s, at) == Some(place) && Blank(s, place) && Spliced(s, at, out, t, f) && WritesBare(f)
    ensures InOrder(s, place.q, Calls(s, place.q))
    ensures out[t..] == BARE + s[place.m + 1..place.q] + CLOSE + Splice(s, place.q, Calls(s, place.q), f)
  {
    SpliceCall(s, at, place, f);
    BlankIsBare(f, s[place.p..place.m], s[place.m + 1..place.q]);
  }

  lemma BlankIsBare(f: Rewrite, head: string, tail: string)
    requires WritesBare(f) && WithoutBraces(BaseOf(head)) == []
    ensures f(head, tail) == BARE + tail + CLOSE
  {
  }

  lemma WritesCall(s: string, at: nat, out: string, t: nat, place: Place, f: Rewrite)
    requires at < |s| && CallAt(s, at) == Some(place) && Blank(s, place) && Spliced(s, at, out, t, f) && WritesBare(f)
    ensures Written(s, place, out, t) && Spliced(s, place.q, out, t + 9 + (place.q - place.m), f)
  {
    CallIsNext(s, at, out, t, place, f);
    WrittenAt(out, t, s[place.m + 1..place.q], Splice(s, place.q, Calls(s, place.q), f));
    IsWritten(s, place, out, t);
  }

  /** One character or one bare call of the text is written at `t`, and what comes next is in order. */
  ghost predicate Goes(s: string, at: nat, out: string, t: nat, next: (nat, nat) -> bool) {
    && at <= |s| && t <= |out|
    && if at == |s| then t == |out|
       else
         match CallAt(s, at)
         case None => t < |out| && out[t] == s[at] && next(at + 1, t + 1)
         case Some(place) =>
           BareCall(s, place) && Written(s, place, out, t) && next(place.q, t + 9 + (place.q - place.m))
  }

  lemma {:induction false} StepsFollow(s: string, at: nat, out: string, t: nat, next: (nat, nat) -> bool)
    requires next(at, t) && forall i: nat, u: nat {:trigger Goes(s, i, out, u, next)} :: next(i, u) ==>
               Goes(s, i, out, u, next)
    ensures Follows(s, at, out, t)
    decreases if at <= |s| then |s| - at else 0
  {
    assert Goes(s, at, out, t, next);
    if at < |s| {
      var call := CallAt(s, at);
      if call.None? {
        StepsFollow(s, at + 1, out, t + 1, next);
      } else {
        StepsFollow(s, call.value.q, out, t + 9 + (call.value.q - call.value.m), next);
      }
    }
  }

  /** What is still to come, position by position in text and output. */
  ghost function ToCome(s: string, out: string, f: Rewrite): (nat, nat) -> bool {
    (i: nat, u: nat) => i <= |s| && Spliced(s, i, out, u, f) && AllBlank(s, i)
  }

  lemma SplicedFollows(s: string, at: nat, out: string, t: nat, f: Rewrite)
    requires Spliced(s, at, out, t, f) && AllBlank(s, at) && WritesBare(f)
    ensures Follows(s, at, out, t)
  {
    var next := ToCome(s, out, f);
    forall i: nat, u: nat | next(i, u)
      ensures Goes(s, i, out, u, next)
    {
      NextPiece(s, i, out, u, f);
    }
    StepsFollow(s, at, out, t, next);
  }

  /** The next character or call, and where text and output go on. */
  lemma NextPiece(s: string, at: nat, out: string, t: nat, f: Rewrite)
    requires Spliced(s, at, out, t, f) && AllBlank(s, at) && WritesBare(f)
    ensures Goes(s, at, out, t, ToCome(s, out, f))
  {
    if at < |s| {
      var call := CallAt(s, at);
      if call.None? {
        CharGoes(s, at, out, t, f);
      } else {
        CallGoes(s, at, out, t, call.value, f);
      }
    }
  }

  lemma CharGoes(s: string, at: nat, out: string, t: nat, f: Rewrite)
    requires at < |s| && CallAt(s, at).None? && Spliced(s, at, out, t, f) && AllBlank(s, at)
    ensures Goes(s, at, out, t, ToCome(s, out, f))
  {
    CopiesChar(s, at, out, t, f);
  }

  lemma CallGoes(s: string, at: nat, out: string, t: nat, place: Place, f: Rewrite)
    requires at < |s| && CallAt(s, at) == Some(place) && Spliced(s, at, out, t, f) && AllBlank(s, at) && WritesBare(f)
    ensures Goes(s, at, out, t, ToCome(s, out, f))
  {
    CallPiece(s, at, out, t, place, f);
  }

  lemma CallPiece(s: string, at: nat, out: string, t: nat, place: Place, f: Rewrite)
    requires at < |s| && CallAt(s, at) == Some(place) && Spliced(s, at, out, t, f) && AllBlank(s, at) && WritesBare(f)
    ensures BareCall(s, place) && Written(s, place, out, t) && at < place.q <= |s| && AllBlank(s, place.q)
    ensures Spliced(s, place.q, out, t + 9 + (place.q - place.m), f)
  {
    CallIsBlank(s, at, place);
    WritesCall(s, at, out, t, place, f);
  }

  lemma CallIsBlank(s: string, at: nat, place: Place)
    requires at < |s| && CallAt(s, at) == Some(place) && AllBlank(s, at)
    ensures at < place.q <= |s| && Blank(s, place) && AllBlank(s, place.q) && BareCall(s, place)
  {
    BlankHead(s, place);
  }

  lemma NextChar(out: string, t: nat, c: char, rest: string)
    requires t <= |out| && out[t..] == [c] + rest
    ensures t < |out| && out[t] == c && out[t + 1..] == rest
  {
    assert out[t] == out[t..][0];
    assert out[t + 1..] == out[t..][1..];
  }

  // ---- What of a call is left to come at a position: the same in the text and in the output. ----

  /** From `i` on, the first parenthesis is a closing one. */
  predicate ArgOk(s: string, i: nat)
    requires i <= |s|
  {
    var q := FindEither(s, i, '(', ')');
    q < |s| && s[q] == ')'
  }

  /** From `i` on, the first closing brace is followed by an argument. */
  predicate TailOk(s: string, i: nat)
    requires i <= |s|
  {
    var e := FindEither(s, i, '}', '}');
    e + 1 < |s| && s[e + 1] == '(' && ArgOk(s, e + 2)
  }

  /** The digits from `i` on are followed by an argument. */
  predicate DigitsOk(s: string, i: nat)
    requires i <= |s|
  {
    var e := DigitsEnd(s, i);
    e < |s| && s[e] == '(' && ArgOk(s, e + 1)
  }

  /** A base and an argument. */
  predicate BaseOk(s: string, b: nat)
    requires b <= |s|
  {
    && b < |s|
    && if IsDigit(s[b]) then DigitsOk(s, b + 1) else s[b] == '{' && b + 1 < |s| && s[b + 1] != '}' && TailOk(s, b + 1)
  }

  lemma CallIsBaseOk(s: string, p: nat)
    requires p <= |s|
    ensures CallAt(s, p).Some? <==> LogAt(s, p) && BaseOk(s, BaseStart(s, p))
  {
  }

  lemma WrittenArgument(s: string, place: Place, out: string, t: nat, i: nat)
    requires Fits(s, place) && Written(s, place, out, t) && place.m + 1 <= i < place.q
    ensures t + 9 + (i - place.m - 1) < |out| && out[t + 9 + (i - place.m - 1)] == s[i]
  {
    var Place(p, m, q) := place;
    assert out[t + 9..t + 9 + (q - m - 1)][i - m - 1] == s[m + 1..q][i - m - 1];
  }

  /** The written call has an argument of its own from behind its parenthesis on. */
  lemma WrittenArgOk(s: string, place: Place, out: string, t: nat)
    requires Fits(s, place) && Written(s, place, out, t) && place.m + 1 < place.q && s[place.q - 1] == ')'
    requires NoneOf(s, place.m + 1, place.q - 1, '(', ')')
    ensures ArgOk(s, place.m + 1) && ArgOk(out, t + 9)
  {
    var Place(p, m, q) := place;
    FindIn(s, m + 1, q - 1, '(', ')');
    var e := t + 9 + (q - 1 - m - 1);
    WrittenArgument(s, place, out, t, q - 1);
    forall k | t + 9 <= k < e
      ensures out[k] != '(' && out[k] != ')'
    {
      WrittenArgument(s, place, out, t, k - t - 9 + m + 1);
    }
    FindIn(out, t + 9, e, '(', ')');
  }

  /** From a blank call on, an opening parenthesis comes first... */
  lemma ArgAtCall(s: string, place: Place, out: string, t: nat)
    requires BareCall(s, place) && Written(s, place, out, t)
    ensures !ArgOk(s, place.p) && !ArgOk(out, t)
  {
    FindIn(s, place.p, place.m, '(', ')');
    FindIn(out, t, t + 8, '(', ')');
  }

  /** ... and the first closing brace is followed by its argument. */
  lemma TailAtCall(s: string, place: Place, out: string, t: nat)
    requires BareCall(s, place) && Written(s, place, out, t)
    ensures TailOk(s, place.p) && TailOk(out, t)
  {
    WrittenArgOk(s, place, out, t);
    FindIn(s, place.p, place.m - 1, '}', '}');
    FindIn(out, t, t + 7, '}', '}');
  }

  lemma {:induction false} ArgAgrees(s: string, at: nat, out: string, t: nat)
    requires Follows(s, at, out, t)
    ensures ArgOk(s, at) == ArgOk(out, t)
    decreases |s| - at
  {
    if at == |s| {
    } else {
      match CallAt(s, at)
      case None =>
        ArgAgrees(s, at + 1, out, t + 1);
      case Some(place) =>
        ArgAtCall(s, place, out, t);
    }
  }

  /** An argument in parentheses comes next. */
  predicate ParenOk(s: string, i: nat)
    requires i <= |s|
  {
    i < |s| && s[i] == '(' && ArgOk(s, i + 1)
  }

  lemma TailStep(s: string, i: nat)
    requires i < |s|
    ensures TailOk(s, i) == if s[i] == '}' then ParenOk(s, i + 1) else TailOk(s, i + 1)
  {
  }

  lemma {:induction false} TailAgrees(s: string, at: nat, out: string, t: nat)
    requires Follows(s, at, out, t)
    ensures TailOk(s, at) == TailOk(out, t)
    decreases |s| - at
  {
    if at == |s| {
    } else {
      match CallAt(s, at)
      case None =>
        TailStep(s, at);
        TailStep(out, t);
        ParenAgrees(s, at + 1, out, t + 1);
        TailAgrees(s, at + 1, out, t + 1);
      case Some(place) =>
        TailAtCall(s, place, out, t);
    }
  }

  lemma ParenAgrees(s: string, at: nat, out: string, t: nat)
    requires Follows(s, at, out, t)
    ensures ParenOk(s, at) == ParenOk(out, t)
  {
    if at == |s| {
    } else {
      match CallAt(s, at)
      case None =>
        ArgAgrees(s, at + 1, out, t + 1);
      case Some(place) =>
    }
  }

  lemma {:induction false} DigitsAgree(s: string, at: nat, out: string, t: nat)
    requires Follows(s, at, out, t) && WordBefore(s, at)
    ensures DigitsOk(s, at) == DigitsOk(out, t)
    decreases |s| - at
  {
    if at == |s| {
    } else {
      if IsDigit(s[at]) {
        DigitsAgree(s, at + 1, out, t + 1);
      } else {
        ParenAgrees(s, at, out, t);
      }
    }
  }

  lemma BaseAgrees(s: string, b: nat, out: string, t: nat)
    requires Follows(s, b, out, t) && WordBefore(s, b)
    ensures BaseOk(s, b) == BaseOk(out, t)
  {
    if b == |s| {
    } else {
      if IsDigit(s[b]) {
        DigitsAgree(s, b + 1, out, t + 1);
      } else if s[b] == '{' {
        TailAgrees(s, b + 1, out, t + 1);
        NotClosed(s, b + 1, out, t + 1);
      }
    }
  }

  lemma NotClosed(s: string, at: nat, out: string, t: nat)
    requires Follows(s, at, out, t)
    ensures (at < |s| && s[at] != '}') == (t < |out| && out[t] != '}')
  {
    if at == |s| {
    } else {
      match CallAt(s, at)
      case None =>
      case Some(place) =>
    }
  }

  /** A call in the output that begins with a copied character would be one in the text. */
  lemma NoCallInGap(s: string, at: nat, out: string, t: nat)
    requires Follows(s, at, out, t) && at < |s| && CallAt(s, at).None?
    requires WordBefore(s, at) == WordBefore(out, t)
    ensures CallAt(out, t).None?
  {
    CallIsBaseOk(s, at);
    CallIsBaseOk(out, t);
    if LogAt(out, t) {
      CopyWord(s, at + 1, out, t + 1);
      CopyWord(s, at + 2, out, t + 2);
      assert LogAt(s, at);
      if at + 3 < |s| {
      } else {
      }
      BaseAgrees(s, BaseStart(s, at), out, BaseStart(out, t));
    }
  }

  /** Behind a word character no call begins. */
  lemma CopyWord(s: string, at: nat, out: string, t: nat)
    requires Follows(s, at, out, t) && WordBefore(s, at) && t < |out|
    ensures at < |s| && out[t] == s[at] && Follows(s, at + 1, out, t + 1)
  {
    if at < |s| {
    }
  }

  // ---- Inside a rewritten call. ----

  /** What is written before the argument holds no call. */
  lemma NoCallInBare(s: string, place: Place, out: string, t: nat, k: nat)
    requires Fits(s, place) && Written(s, place, out, t) && k < 9
    ensures CallAt(out, t + k).None?
  {
    if k == 2 {
      FindIn(out, t + 7, t + 7, '}', '}');
      CallIsBaseOk(out, t + 2);
    }
  }

  lemma NoCallInHead(s: string, place: Place, i: nat)
    requires BareCall(s, place) && place.p < i <= place.m
    ensures CallAt(s, i).None?
  {
    assert s[i] != 'l';
  }

  /** s[a..e] is an argument with its closing parenthesis, `out` shows it `d` places further on, followed by `$`, and
      what comes after is the same for a base that is still open. */
  ghost predicate Copied(s: string, a: nat, e: nat, out: string, d: int) {
    && 0 < a < e <= |s| && 0 < a + d && e + d < |out|
    && s[a - 1] == '(' && out[a - 1 + d] == '(' && s[e - 1] == ')' && out[e + d] == '$'
    && (forall i :: a <= i < e - 1 ==> s[i] != '(' && s[i] != ')')
    && (forall i :: a <= i < e ==> out[i + d] == s[i])
    && TailOk(s, e) == TailOk(out, e + d + 1)
  }

  /** Inside an argument digits are never followed by one. */
  lemma {:induction false} DigitsFail(s: string, a: nat, e: nat, out: string, d: int, i: nat)
    requires Copied(s, a, e, out, d) && a <= i < e
    ensures !DigitsOk(s, i) && !DigitsOk(out, i + d)
    decreases e - i
  {
    assert out[i + d] == s[i];
    if IsDigit(s[i]) {
      DigitsFail(s, a, e, out, d, i + 1);
    }
  }

  lemma {:induction false} TailInside(s: string, a: nat, e: nat, out: string, d: int, i: nat)
    requires Copied(s, a, e, out, d) && a <= i < e
    ensures TailOk(s, i) == TailOk(out, i + d)
    decreases e - i
  {
    assert out[i + d] == s[i];
    if i == e - 1 {
      assert FindEither(out, e + d, '}', '}') == FindEither(out, e + d + 1, '}', '}');
    } else {
      assert out[i + 1 + d] == s[i + 1];
      if s[i] != '}' {
        TailInside(s, a, e, out, d, i + 1);
      }
    }
  }

  lemma BaseInside(s: string, a: nat, e: nat, out: string, d: int, b: nat)
    requires Copied(s, a, e, out, d) && a <= b < e
    ensures BaseOk(s, b) == BaseOk(out, b + d)
  {
    assert out[b + d] == s[b];
    if b + 1 < e {
      assert out[b + 1 + d] == s[b + 1];
      DigitsFail(s, a, e, out, d, b + 1);
      TailInside(s, a, e, out, d, b + 1);
    }
  }

  lemma LogInside(s: string, a: nat, e: nat, out: string, d: int, i: nat)
    requires Copied(s, a, e, out, d) && a <= i < e
    ensures LogAt(s, i) == LogAt(out, i + d)
    ensures LogAt(s, i) ==> BaseStart(s, i) < e && BaseStart(out, i + d) == BaseStart(s, i) + d
  {
    assert out[i + d] == s[i];
    assert i > a ==> out[i - 1 + d] == s[i - 1];
    assert i + 1 < e ==> out[i + 1 + d] == s[i + 1];
    assert i + 2 < e ==> out[i + 2 + d] == s[i + 2];
    assert i + 3 < e ==> out[i + 3 + d] == s[i + 3];
  }

  /** In an argument the output has a call exactly where the text has one. */
  lemma CallInside(s: string, a: nat, e: nat, out: string, d: int, i: nat)
    requires Copied(s, a, e, out, d) && a <= i < e
    ensures CallAt(s, i).Some? == CallAt(out, i + d).Some?
  {
    CallIsBaseOk(s, i);
    CallIsBaseOk(out, i + d);
    LogInside(s, a, e, out, d, i);
    if LogAt(s, i) {
      BaseInside(s, a, e, out, d, BaseStart(s, i));
    }
  }

  // ---- The whole text. ----

  /** A call begins somewhere in `a..b`. */
  predicate CallIn(s: string, a: nat, b: nat)
    requires a <= b <= |s|
    decreases b - a
  {
    a < b && (CallAt(s, a).Some? || CallIn(s, a + 1, b))
  }

  /** A call begins inside a rewritten one, from `at` on. */
  predicate Hidden(s: string, at: nat)
    requires at <= |s|
    decreases |s| - at
  {
    at < |s| &&
    match CallAt(s, at)
    case None => Hidden(s, at + 1)
    case Some(place) => CallIn(s, place.p + 1, place.q) || Hidden(s, place.q)
  }

  lemma {:induction false} CallInSplits(s: string, a: nat, b: nat, c: nat)
    requires a <= b <= c <= |s|
    ensures CallIn(s, a, c) <==> CallIn(s, a, b) || CallIn(s, b, c)
    decreases b - a
  {
    if a < b {
      CallInSplits(s, a + 1, b, c);
    }
  }

  lemma {:induction false} NoneIn(s: string, a: nat, b: nat)
    requires a <= b <= |s| && forall i :: a <= i < b ==> CallAt(s, i).None?
    ensures !CallIn(s, a, b)
    decreases b - a
  {
    if a < b {
      NoneIn(s, a + 1, b);
    }
  }

  lemma {:induction false} SameInside(s: string, a: nat, e: nat, out: string, d: int, i: nat)
    requires Copied(s, a, e, out, d) && a <= i <= e
    ensures CallIn(s, i, e) == CallIn(out, i + d, e + d)
    decreases e - i
  {
    if i < e {
      CallInside(s, a, e, out, d, i);
      SameInside(s, a, e, out, d, i + 1);
    }
  }

  /** Blank call `place` stands at `t` of the output, which goes on behind it. */
  ghost predicate Rewritten(s: string, place: Place, out: string, t: nat) {
    && BareCall(s, place) && Written(s, place, out, t) && t + 9 + (place.q - place.m) <= |out|
    && TailOk(s, place.q) == TailOk(out, t + 9 + (place.q - place.m))
  }

  lemma RewrittenIsCopied(s: string, place: Place, out: string, t: nat)
    requires Rewritten(s, place, out, t)
    ensures Copied(s, place.m + 1, place.q, out, t + 8 - place.m)
  {
    var Place(p, m, q) := place;
    forall i | m + 1 <= i < q
      ensures out[i + (t + 8 - m)] == s[i]
    {
      WrittenArgument(s, place, out, t, i);
    }
  }

  /** The calls of the output within a rewritten call are those the text has inside it. */
  lemma CallsOfRewritten(s: string, place: Place, out: string, t: nat)
    requires Rewritten(s, place, out, t)
    ensures var t' := t + 9 + (place.q - place.m);
            t' <= |out| && CallIn(out, t, t') == CallIn(s, place.p + 1, place.q)
  {
    RewrittenIsCopied(s, place, out, t);
    NothingBefore(s, place, out, t);
    CallsOfCopied(s, place.p + 1, place.m + 1, place.q, out, t, t + 8 - place.m);
  }

  lemma CallsOfCopied(s: string, p: nat, a: nat, e: nat, out: string, t: nat, d: int)
    requires Copied(s, a, e, out, d) && p <= a && t <= a + d && !CallIn(s, p, a) && !CallIn(out, t, a + d)
    ensures CallIn(out, t, e + d + 1) == CallIn(s, p, e)
  {
    SameInside(s, a, e, out, d, a);
    assert CallAt(out, e + d).None?;
    PutTogether(s, p, a, e, out, t, a + d, e + d);
  }

  lemma PutTogether(s: string, a: nat, b: nat, c: nat, out: string, t: nat, u: nat, v: nat)
    requires a <= b <= c <= |s| && t <= u <= v < |out| && CallAt(out, v).None?
    requires !CallIn(s, a, b) && !CallIn(out, t, u) && CallIn(s, b, c) == CallIn(out, u, v)
    ensures CallIn(s, a, c) == CallIn(out, t, v + 1)
  {
    CallInSplits(s, a, b, c);
    CallInSplits(out, t, u, v);
    CallInSplits(out, t, v, v + 1);
    NoneIn(out, v, v + 1);
  }

  lemma NothingBefore(s: string, place: Place, out: string, t: nat)
    requires BareCall(s, place) && Written(s, place, out, t)
    ensures !CallIn(out, t, t + 9) && !CallIn(s, place.p + 1, place.m + 1)
  {
    forall i | t <= i < t + 9
      ensures CallAt(out, i).None?
    {
      NoCallInBare(s, place, out, t, i - t);
    }
    NoneIn(out, t, t + 9);
    forall i | place.p + 1 <= i < place.m + 1
      ensures CallAt(s, i).None?
    {
      NoCallInHead(s, place, i);
    }
    NoneIn(s, place.p + 1, place.m + 1);
  }

  lemma {:induction false} OutputCallsAreHidden(s: string, at: nat, out: string, t: nat)
    requires Follows(s, at, out, t) && WordBefore(s, at) == WordBefore(out, t)
    ensures CallIn(out, t, |out|) == Hidden(s, at)
    decreases |s| - at
  {
    if at == |s| {
    } else {
      match CallAt(s, at)
      case None =>
        NoCallInGap(s, at, out, t);
        OutputCallsAreHidden(s, at + 1, out, t + 1);
      case Some(place) =>
        var t' := SkipCall(s, at, out, t, place);
        OutputCallsAreHidden(s, place.q, out, t');
        CallInSplits(out, t, t', |out|);
    }
  }

  lemma SkipCall(s: string, at: nat, out: string, t: nat, place: Place) returns (t': nat)
    requires Follows(s, at, out, t) && at < |s| && CallAt(s, at) == Some(place)
    ensures Follows(s, place.q, out, t') && t <= t' <= |out|
    ensures WordBefore(s, place.q) == WordBefore(out, t')
    ensures CallIn(out, t, t') == CallIn(s, place.p + 1, place.q)
  {
    t' := t + 9 + (place.q - place.m);
    TailAgrees(s, place.q, out, t');
    BehindCall(s, place, out, t);
    CallsOfRewritten(s, place, out, t);
  }

  lemma BehindCall(s: string, place: Place, out: string, t: nat)
    requires BareCall(s, place) && Written(s, place, out, t)
    ensures var t' := t + 9 + (place.q - place.m);
            t' <= |out| && !WordBefore(s, place.q) && !WordBefore(out, t')
  {
  }

  // ---- The condition. ----

  lemma {:induction false} CallInIff(s: string, a: nat, b: nat)
    requires a <= b <= |s|
    ensures CallIn(s, a, b) <==> exists place: Place :: a <= place.p < b && IsCall(s, place)
    decreases b - a
  {
    if a < b {
      CallInIff(s, a + 1, b);
      if CallAt(s, a).Some? {
        CallIff(s, CallAt(s, a).value);
        assert IsCall(s, CallAt(s, a).value);
      }
      forall place: Place | place.p == a && IsCall(s, place)
        ensures CallAt(s, a).Some?
      {
        CallIff(s, place);
      }
    }
  }

  lemma {:induction false} NotBlank(base: string, i: nat)
    requires i < |base| && base[i] != '{' && base[i] != '}'
    ensures WithoutBraces(base) != []
    decreases |base|
  {
    if i > 0 {
      NotBlank(base[1..], i - 1);
    }
  }

  /** A call that begins inside a blank one has a base that reaches out of it, so it is not blank itself. */
  lemma HiddenIsNotBlank(s: string, place: Place, hidden: Place)
    requires BareCall(s, place) && IsCall(s, hidden) && place.p < hidden.p < place.q
    ensures !Blank(s, hidden)
  {
    var b, last := BaseStart(s, hidden.p), place.q - 1;
    HiddenReachesOut(s, place, hidden);
    BaseOfHead(s, hidden.p, hidden.m);
    var base := s[b..hidden.m];
    assert base[last - b] == ')';
    NotBlank(base, last - b);
  }

  lemma HiddenReachesOut(s: string, place: Place, hidden: Place)
    requires BareCall(s, place) && IsCall(s, hidden) && place.p < hidden.p < place.q
    ensures BaseStart(s, hidden.p) <= place.q - 1 < hidden.m
  {
    assert s[hidden.p] == 'l' && s[hidden.m] == '(';
    assert hidden.p > place.m;
    assert s[place.q - 1] == ')';
  }

  lemma {:induction false} HiddenShows(s: string, at: nat) returns (hidden: Place)
    requires at <= |s| && AllBlank(s, at) && Hidden(s, at)
    ensures IsCall(s, hidden) && !Blank(s, hidden)
    decreases |s| - at
  {
    match CallAt(s, at)
    case None => hidden := HiddenShows(s, at + 1);
    case Some(place) =>
      if CallIn(s, place.p + 1, place.q) {
        CallInIff(s, place.p + 1, place.q);
        hidden :| place.p + 1 <= hidden.p < place.q && IsCall(s, hidden);
        BlankHead(s, place);
        HiddenIsNotBlank(s, place, hidden);
      } else {
        hidden := HiddenShows(s, place.q);
      }
  }

  lemma InsideIsHidden(s: string, place: Place, call: Place)
    requires Fits(s, place) && CallAt(s, place.p) == Some(place) && IsCall(s, call) && place.p < call.p < place.q
    ensures Hidden(s, place.p)
  {
    CallInIff(s, place.p + 1, place.q);
  }

  lemma {:induction false} NothingHidden(s: string, at: nat, call: Place)
    requires at <= call.p && IsCall(s, call) && AllBlank(s, at) && !Hidden(s, at)
    ensures Blank(s, call)
    decreases |s| - at
  {
    match CallAt(s, at)
    case None =>
      CallIff(s, call);
      NothingHidden(s, at + 1, call);
    case Some(place) =>
      if call.p == at {
        CallIff(s, call);
      } else if call.p < place.q {
        InsideIsHidden(s, place, call);
      } else {
        NothingHidden(s, place.q, call);
      }
  }

  lemma {:induction false} SomeNotBlank(s: string, at: nat) returns (place: Place)
    requires at <= |s| && !AllBlank(s, at)
    ensures place in Calls(s, at) && IsCall(s, place) && !Blank(s, place)
    decreases |s| - at
  {
    match CallAt(s, at)
    case None => place := SomeNotBlank(s, at + 1);
    case Some(first) =>
      if Blank(s, first) {
        place := SomeNotBlank(s, first.q);
      } else {
        place := first;
        CallIff(s, place);
      }
  }

  /** Every call of the text has a base that is nothing but braces. */
  ghost predicate NoProperCall(s: string) {
    forall place :: IsCall(s, place) ==> Blank(s, place)
  }

  lemma BlankOutputIff(s: string)
    requires AllBlank(s, 0)
    ensures CallIn(FixFlatLogarithms(s), 0, |FixFlatLogarithms(s)|) == Hidden(s, 0)
  {
    var out := FixFlatLogarithms(s);
    CallsInOrder(s, 0);
    assert out[0..] == out;
    LogWritesBare();
    SplicedFollows(s, 0, out, 0, Log);
    OutputCallsAreHidden(s, 0, out, 0);
  }

  lemma HiddenIff(s: string)
    requires AllBlank(s, 0)
    ensures Hidden(s, 0) <==> !NoProperCall(s)
  {
    if Hidden(s, 0) {
      var hidden := HiddenShows(s, 0);
    } else {
      forall place | IsCall(s, place)
        ensures Blank(s, place)
      {
        NothingHidden(s, 0, place);
      }
    }
  }

  /** Rewriting twice is rewriting once if and only if every call of the text, rewritten or begun inside a rewritten
      one, has a base that is nothing but braces. */
  lemma TwiceIsOnceIff(s: string)
    ensures var out := FixFlatLogarithms(s);
            FixFlatLogarithms(out) == out <==> NoProperCall(s)
  {
    if AllBlank(s, 0) {
      IdempotentIff(s);
      BlankOutputIff(s);
      CallInIff(FixFlatLogarithms(s), 0, |FixFlatLogarithms(s)|);
      HiddenIff(s);
    } else {
      var place := SomeNotBlank(s, 0);
      TwiceDiffers(s, place);
    }
  }

  /** A call with a base of braces whose argument begins another one. */
  const NESTED: string := "log{{}(log{)x}(y)"

  /** It is not enough that the rewritten calls have such bases: here the only one does, and the output is rewritten
      again. */
  lemma HiddenCallMatters()
    ensures AllBlank(NESTED, 0) && FixFlatLogarithms(FixFlatLogarithms(NESTED)) != FixFlatLogarithms(NESTED)
  {
    var s, outer, hidden := NESTED, Place(0, 6, 12), Place(7, 14, 17);
    assert s == ['l', 'o', 'g', '{', '{', '}', '(', 'l', 'o', 'g', '{', ')', 'x', '}', '(', 'y', ')'];
    NestedCalls(s);
    CallIff(s, outer);
    assert forall i :: 12 <= i < 17 ==> s[i] != 'l';
    NoLogNoCalls(s, 12);
    assert BaseOf(s[7..14])[1] == ')';
    NotBlank(BaseOf(s[7..14]), 1);
    TwiceIsOnceIff(s);
  }

  lemma NestedCalls(s: string)
    requires s == ['l', 'o', 'g', '{', '{', '}', '(', 'l', 'o', 'g', '{', ')', 'x', '}', '(', 'y', ')']
    ensures IsCall(s, Place(0, 6, 12)) && Blank(s, Place(0, 6, 12)) && IsCall(s, Place(7, 14, 17))
  {
    OuterCall(s);
    OuterIsBlank(s);
    InnerCall(s);
  }

  lemma OuterCall(s: string)
    requires s == ['l', 'o', 'g', '{', '{', '}', '(', 'l', 'o', 'g', '{', ')', 'x', '}', '(', 'y', ')']
    ensures IsCall(s, Place(0, 6, 12))
  {
    assert IsBase(s, 3, 6);
    assert LogAt(s, 0);
    assert NoneOf(s, 7, 11, '(', ')');
  }

  lemma InnerCall(s: string)
    requires s == ['l', 'o', 'g', '{', '{', '}', '(', 'l', 'o', 'g', '{', ')', 'x', '}', '(', 'y', ')']
    ensures IsCall(s, Place(7, 14, 17))
  {
    assert IsBase(s, 10, 14);
    assert LogAt(s, 7);
    assert NoneOf(s, 15, 16, '(', ')');
  }

  lemma OuterIsBlank(s: string)
    requires s == ['l', 'o', 'g', '{', '{', '}', '(', 'l', 'o', 'g', '{', ')', 'x', '}', '(', 'y', ')']
    ensures Blank(s, Place(0, 6, 12))
  {
    assert BaseOf(s[0..6]) == ['{', '{', '}'];
    assert ['{', '{', '}'][1..] == ['{', '}'] && ['{', '}'][1..] == ['}'] && ['}'][1..] == [];
    assert WithoutBraces(['}']) == [] && WithoutBraces(['{', '}']) == [];
  }

  lemma {:induction false} NoLogNoCalls(s: string, at: nat)
    requires at <= |s| && forall i :: at <= i < |s| ==> s[i] != 'l'
    ensures AllBlank(s, at)
    decreases |s| - at
  {
    if at < |s| {
      NoLogNoCalls(s, at + 1);
    }
  }
}
