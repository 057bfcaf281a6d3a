/** JSON text that breaks off and is followed by something else: no parser state survives it. */
module JsonCut {
  import opened Common
  import opened JsonText

  /** `y` is `data: {"` and then `z`, which begins with a letter no JSON text goes on with after a string. */
  ghost predicate Foreign(y: string, z: string) {
    && y == ['d', 'a', 't', 'a', ':', ' ', '{', '"'] + z
    && z != [] && z[0] == 'e'
  }

  ghost predicate EndsIn(s: string, y: string) {
    |s| >= |y| && s[|s| - |y|..] == y
  }

  /** What a parser may leave of a text that ends in `y`: a text that still does, or what follows the quote in `y`. */
  ghost predicate Leaves(rest: string, y: string, z: string) {
    EndsIn(rest, y) || rest == z
  }

  lemma Later(s: string, y: string, n: nat)
    requires EndsIn(s, y) && n <= |s| - |y|
    ensures EndsIn(s[n..], y)
  {
    assert s[n..][|s| - n - |y|..] == s[|s| - |y|..];
  }

  /** Inside `y` a string goes on to the quote. */
  lemma {:induction false} CharsInside(y: string, z: string, k: nat)
    requires Foreign(y, z) && k <= 7
    ensures ParseChars(y[k..]).Ok? && ParseChars(y[k..]).rest == z
    decreases 7 - k
  {
    var s := y[k..];
    assert s[0] == y[k] && s[1..] == y[k + 1..];
    if k < 7 {
      CharsInside(y, z, k + 1);
    } else {
      assert y[8..] == z;
    }
  }

  lemma EscapeLeaves(t: string, y: string, z: string)
    requires Foreign(y, z) && EndsIn(t, y) && ParseEscape(t).Ok?
    ensures var rest := ParseEscape(t).rest;
            EndsIn(rest, y) || exists k :: 1 <= k <= 2 && rest == y[k..]
  {
    var x := |t| - |y|;
    assert forall i :: x <= i < |t| ==> t[i] == y[i - x];
    assert x > 0;
    Later(t, y, 1);
    if t[0] == 'u' {
      if x >= 5 {
        Later(t, y, 5);
        assert t[1..][4..] == t[5..];
      } else {
        var k := 5 - x;
        assert t[1..][4..] == t[5..];
        assert t[5..] == y[k..];
      }
    }
  }

  lemma {:induction false} CharsLeave(s: string, y: string, z: string)
    requires Foreign(y, z) && EndsIn(s, y) && ParseChars(s).Ok?
    ensures Leaves(ParseChars(s).rest, y, z)
    decreases |s|
  {
    if s == y {
      CharsInside(y, z, 0);
      assert y[0..] == y;
    } else {
      assert s[0] == s[..|s| - |y|][0];
      Later(s, y, 1);
      if s[0] == '\\' {
        EscapeLeaves(s[1..], y, z);
        var rest := ParseEscape(s[1..]).rest;
        if EndsIn(rest, y) {
          CharsLeave(rest, y, z);
        } else {
          var k :| 1 <= k <= 2 && rest == y[k..];
          CharsInside(y, z, k);
        }
      } else if s[0] != '"' {
        CharsLeave(s[1..], y, z);
      }
    }
  }

  lemma StringLeaves(s: string, y: string, z: string)
    requires Foreign(y, z) && EndsIn(s, y) && ParseString(s).Ok?
    ensures Leaves(ParseString(s).rest, y, z)
  {
    assert s != y;
    Later(s, y, 1);
    CharsLeave(s[1..], y, z);
  }

  lemma {:induction false} DigitsLeave(s: string, acc: nat, y: string, z: string)
    requires Foreign(y, z) && EndsIn(s, y)
    ensures EndsIn(ParseDigits(s, acc).rest, y)
    decreases |s|
  {
    if IsDigit(s[0]) {
      assert s != y;
      Later(s, y, 1);
      DigitsLeave(s[1..], acc * 10 + (s[0] as int - '0' as int), y, z);
    }
  }

  lemma NatLeaves(s: string, y: string, z: string)
    requires Foreign(y, z) && EndsIn(s, y) && ParseNat(s).Ok?
    ensures EndsIn(ParseNat(s).rest, y)
  {
    assert s != y;
    Later(s, y, 1);
    if s[0] != '0' {
      DigitsLeave(s[1..], s[0] as int - '0' as int, y, z);
    }
  }

  lemma LiteralLeaves(s: string, word: string, value: Json<Unit>, y: string, z: string)
    requires Foreign(y, z) && EndsIn(s, y) && word != [] && 'd' !in word && ParseLiteral(s, word, value).Ok?
    ensures EndsIn(ParseLiteral(s, word, value).rest, y)
  {
    assert s[|s| - |y|] == s[|s| - |y|..][0] == 'd';
    assert forall i :: 0 <= i < |word| ==> word[i] == s[i];
    Later(s, y, |word|);
  }

  lemma {:induction false} WsLeaves(s: string, y: string, z: string)
    requires Foreign(y, z) && EndsIn(s, y)
    ensures EndsIn(SkipWs(s), y) && SkipWs(s) != []
    decreases |s|
  {
    if IsWs(s[0]) {
      assert s != y;
      Later(s, y, 1);
      WsLeaves(s[1..], y, z);
    }
  }

  /** A text that begins with a character `y` does not begin with goes on without it. */
  lemma AfterChar(s: string, y: string, z: string)
    requires Foreign(y, z) && EndsIn(s, y) && s[0] != 'd'
    ensures EndsIn(s[1..], y)
  {
    assert s != y;
    Later(s, y, 1);
  }

  lemma {:induction false} ValueLeaves(s: string, y: string, z: string)
    requires Foreign(y, z) && EndsIn(s, y) && Parse(s).Ok?
    ensures Leaves(Parse(s).rest, y, z)
    decreases |s|, 0
  {
    AfterChar(s, y, z);
    if s[0] == 'n' {
      LiteralLeaves(s, ['n', 'u', 'l', 'l'], Null, y, z);
    } else if s[0] == 't' {
      LiteralLeaves(s, ['t', 'r', 'u', 'e'], Bool(true), y, z);
    } else if s[0] == 'f' {
      LiteralLeaves(s, ['f', 'a', 'l', 's', 'e'], Bool(false), y, z);
    } else if s[0] == '"' {
      StringLeaves(s, y, z);
    } else if s[0] == '-' {
      NatLeaves(s[1..], y, z);
    } else if IsDigit(s[0]) {
      NatLeaves(s, y, z);
    } else {
      WsLeaves(s[1..], y, z);
      var t := SkipWs(s[1..]);
      if (s[0] == '[' && t[0] == ']') || (s[0] == '{' && t[0] == '}') {
        AfterChar(t, y, z);
      } else if s[0] == '[' {
        ItemsLeave(t, y, z);
      } else {
        MembersLeave(t, y, z);
      }
    }
  }

  lemma {:induction false} ItemsLeave(s: string, y: string, z: string)
    requires Foreign(y, z) && EndsIn(s, y) && ParseItems(s).Ok?
    ensures Leaves(ParseItems(s).rest, y, z)
    decreases |s|, 1
  {
    ValueLeaves(s, y, z);
    var rest := Parse(s).rest;
    assert rest != z;
    WsLeaves(rest, y, z);
    var t := SkipWs(rest);
    AfterChar(t, y, z);
    if t[0] == ',' {
      WsLeaves(t[1..], y, z);
      ItemsLeave(SkipWs(t[1..]), y, z);
    }
  }

  lemma {:induction false} ColonValueLeaves(s: string, y: string, z: string)
    requires Foreign(y, z) && Leaves(s, y, z) && ParseColonValue(s).Ok?
    ensures Leaves(ParseColonValue(s).rest, y, z)
    decreases |s|, 1
  {
    assert s != z;
    WsLeaves(s, y, z);
    var t := SkipWs(s);
    AfterChar(t, y, z);
    WsLeaves(t[1..], y, z);
    ValueLeaves(SkipWs(t[1..]), y, z);
  }

  lemma {:induction false} MembersLeave(s: string, y: string, z: string)
    requires Foreign(y, z) && EndsIn(s, y) && ParseMembers(s).Ok?
    ensures Leaves(ParseMembers(s).rest, y, z)
    decreases |s|, 2
  {
    StringLeaves(s, y, z);
    ColonValueLeaves(ParseString(s).rest, y, z);
    var rest := ParseColonValue(ParseString(s).rest).rest;
    assert rest != z;
    WsLeaves(rest, y, z);
    var u := SkipWs(rest);
    AfterChar(u, y, z);
    if u[0] == ',' {
      WsLeaves(u[1..], y, z);
      MembersLeave(SkipWs(u[1..]), y, z);
    }
  }

  /** Whatever JSON text comes before: glued to `y` it is no JSON text. */
  lemma CutIsRejected(s: string, y: string, z: string)
    requires Foreign(y, z) && EndsIn(s, y)
    ensures Loads(s) == None
  {
    WsLeaves(s, y, z);
    var t := SkipWs(s);
    if Parse(t).Ok? {
      ValueLeaves(t, y, z);
      var rest := Parse(t).rest;
      if EndsIn(rest, y) {
        WsLeaves(rest, y, z);
      } else {
        assert SkipWs(z) == z;
      }
    }
  }
}
