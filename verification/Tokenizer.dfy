/** Breaking strings into tokens (bonephone/Tokenizer.java). */
module Tokenizers {
  import opened Options

  /** The loop that removes leading separators; `None` when it takes the first character of an
      empty string, which is an exception. */
  function Front(data: string, sep: string): (r: Option<string>)
    ensures r.Some? ==> r.value != [] && r.value[0] !in sep && |r.value| <= |data|
  {
    if data == "" then None
    else if data[0] in sep then Front(data[1..], sep)
    else Some(data)
  }

  function Back(data: string, sep: string): (r: string)
    requires data != "" && data[0] !in sep
    ensures r != "" && r[0] == data[0] && r[|r| - 1] !in sep && r <= data
  {
    if data[|data| - 1] in sep then Back(data[..|data| - 1], sep) else data
  }

  /** trim */
  function Trim(data: string, sep: string): (r: Option<string>)
    ensures r.Some? ==> |r.value| <= |data|
    ensures r.Some? && data != "" ==> r.value != "" && r.value[0] !in sep && r.value[|r.value| - 1] !in sep
  {
    if data == "" then Some("")
    else
      match Front(data, sep)
      case None => None
      case Some(d) => Some(Back(d, sep))
  }

  lemma {:induction false} FrontThrows(data: string, sep: string)
    ensures Front(data, sep) == None <==> forall c <- data :: c in sep
  {
    if data != "" {
      assert forall c :: c in data <==> c == data[0] || c in data[1..];
      FrontThrows(data[1..], sep);
    }
  }

  /** Trimming throws exactly on a string of nothing but separators. */
  lemma TrimThrows(data: string, sep: string)
    ensures Trim(data, sep) == None <==> data != "" && forall c <- data :: c in sep
  {
    FrontThrows(data, sep);
  }

  /** The first index of `c`. */
  function IndexOf(data: string, c: char): (r: Option<nat>)
    ensures r == None <==> c !in data
    ensures r.Some? ==> r.value < |data| && data[r.value] == c && forall j :: 0 <= j < r.value ==> data[j] != c
  {
    if data == "" then None
    else if data[0] == c then Some(0)
    else
      match IndexOf(data[1..], c)
      case None => None
      case Some(i) => Some(i + 1)
  }

  /** firstSep: the place of the separator that comes first in `sep`, not in `data`. */
  function FirstSep(data: string, sep: string): (r: Option<nat>)
    ensures r.Some? ==> r.value < |data| && data[r.value] in sep
  {
    if sep == "" then None
    else
      match IndexOf(data, sep[0])
      case Some(i) => Some(i)
      case None => FirstSep(data, sep[1..])
  }

  /** The tokens of `v` in front of what else there is. */
  function Prepend(v: seq<string>, more: Option<seq<string>>): Option<seq<string>> {
    if more == None then None else Some(v + more.value)
  }

  /** What one turn of the loop of split does: an exception, the last tokens, or a token and
      what is left to split. */
  datatype Turn = Throws | Ends(tokens: seq<string>) | Goes(token: string, rest: string)

  function TurnOf(data: string, sep: string): (t: Turn)
    ensures t.Goes? ==> |t.rest| < |data|
  {
    match Trim(data, sep)
    case None => Throws
    case Some(d) =>
      if d == "" then Ends([])
      else
        match FirstSep(d, sep)
        case None => Ends([d])
        case Some(x) =>
          match (Trim(d[..x], sep), Trim(d[x + 1..], sep))
          case (Some(token), Some(rest)) => Goes(token, rest)
          case _ => Throws
  }

  /** split */
  function Split(data: string, sep: string): Option<seq<string>>
    decreases |data|
  {
    match TurnOf(data, sep)
    case Throws => None
    case Ends(tokens) => Some(tokens)
    case Goes(token, rest) => Prepend([token], Split(rest, sep))
  }

  /** Splitting throws exactly on a string of nothing but separators. */
  lemma {:induction false} SplitThrows(data: string, sep: string)
    ensures Split(data, sep) == None <==> data != "" && forall c <- data :: c in sep
    decreases |data|
  {
    TrimThrows(data, sep);
    var t := Trim(data, sep);
    if t.Some? && t.value != "" && FirstSep(t.value, sep).Some? {
      var d := t.value;
      var x := FirstSep(d, sep).value;
      assert x > 0 && d[..x][0] == d[0];
      assert d[x + 1..] != "" && d[x + 1..][|d| - x - 2] == d[|d| - 1];
      TrimThrows(d[..x], sep);
      TrimThrows(d[x + 1..], sep);
      SplitThrows(Trim(d[x + 1..], sep).value, sep);
    }
  }

  // ------------------------------------------------------------ one separator character

  /** How many characters precede the first `c`. */
  function Lead(data: string, c: char): (n: nat)
    ensures n <= |data| && c !in data[..n] && (n < |data| ==> data[n] == c)
  {
    if data == "" || data[0] == c then 0 else 1 + Lead(data[1..], c)
  }

  /** The longest stretches of `data` without `c`. */
  function Words(data: string, c: char): (w: seq<string>)
    ensures forall t <- w :: t != "" && c !in t
    decreases |data|
  {
    if data == "" then []
    else if data[0] == c then Words(data[1..], c)
    else
      var n := Lead(data, c);
      [data[..n]] + Words(data[n..], c)
  }

  lemma {:induction false} WordsSkip(data: string, c: char, d: string)
    requires Front(data, [c]) == Some(d)
    ensures Words(data, c) == Words(d, c)
    decreases |data|
  {
    if data[0] == c {
      WordsSkip(data[1..], c, d);
    }
  }

  lemma LeadIs(a: string, b: string, c: char)
    requires c !in a && (b == "" || b[0] == c)
    ensures Lead(a + b, c) == |a|
  {
    if a == "" {
      assert a + b == b;
    } else {
      assert (a + b)[1..] == a[1..] + b;
      LeadIs(a[1..], b, c);
    }
  }

  lemma WordsFirst(a: string, b: string, c: char)
    requires a != "" && c !in a && (b == "" || b[0] == c)
    ensures Words(a + b, c) == [a] + Words(b, c)
  {
    LeadIs(a, b, c);
    assert (a + b)[0] == a[0] && (a + b)[..|a|] == a && (a + b)[|a|..] == b;
  }

  lemma OneWord(a: string, c: char)
    requires a != "" && c !in a
    ensures Words(a, c) == [a]
  {
    WordsFirst(a, "", c);
    assert a + "" == a;
  }

  lemma {:induction false} WordsPad(d: string, c: char)
    ensures Words(d + [c], c) == Words(d, c)
    decreases |d|
  {
    if d == "" {
      assert d + [c] == [c] && [c][1..] == "";
    } else if d[0] == c {
      assert (d + [c])[1..] == d[1..] + [c];
      WordsPad(d[1..], c);
    } else {
      var n := Lead(d, c);
      var a, b := d[..n], d[n..];
      assert a + b == d && a + (b + [c]) == d + [c];
      WordsFirst(a, b, c);
      WordsFirst(a, b + [c], c);
      WordsPad(b, c);
    }
  }

  lemma {:induction false} WordsBack(d: string, c: char)
    requires d != "" && d[0] != c
    ensures Words(Back(d, [c]), c) == Words(d, c)
    decreases |d|
  {
    if d[|d| - 1] == c {
      var e := d[..|d| - 1];
      assert e + [c] == d;
      WordsPad(e, c);
      WordsBack(e, c);
    }
  }

  lemma WordsTrim(d: string, c: char)
    requires Trim(d, [c]).Some?
    ensures Words(Trim(d, [c]).value, c) == Words(d, c)
  {
    if d != "" {
      var f := Front(d, [c]).value;
      WordsSkip(d, c, f);
      WordsBack(f, c);
    }
  }

  lemma TrimNothing(d: string, c: char)
    requires c !in d
    ensures Trim(d, [c]) == Some(d)
  {
    if d != "" {
      assert d[0] in d && d[|d| - 1] in d;
    }
  }

  /** The words of a trimmed string whose first separator is at `x`. */
  lemma WordsAtSep(d: string, c: char, x: nat)
    requires x < |d| && d[x] == c && c !in d[..x] && d[0] != c && d[|d| - 1] != c
    ensures Trim(d[..x], [c]) == Some(d[..x])
    ensures var b := d[x + 1..];
            && Trim(b, [c]).Some? && Trim(b, [c]).value != "" && Trim(b, [c]).value[0] != c
            && Words(d, c) == [d[..x]] + Words(Trim(b, [c]).value, c)
  {
    hide Trim, Words;
    var a, b := d[..x], d[x + 1..];
    TrimNothing(a, c);
    assert b != "" && b[|b| - 1] == d[|d| - 1];
    TrimmedEnds(b, c, |b| - 1);
    WordsTrim(b, c);
    assert a + ([c] + b) == d;
    WordsFirst(a, [c] + b, c);
    WordsSkipOne(b, c);
  }

  lemma WordsSkipOne(b: string, c: char)
    ensures Words([c] + b, c) == Words(b, c)
  {
    assert ([c] + b)[1..] == b;
  }

  lemma NotAllSeparators(d: string, c: char, i: nat)
    requires i < |d| && d[i] != c
    ensures exists x :: x in d && x !in [c]
  {
    assert d[i] in d;
  }

  /** With one separator character, splitting gives the words of the string. */
  lemma {:induction false} SplitIsWords(data: string, c: char)
    requires data == "" || exists i :: 0 <= i < |data| && data[i] != c
    ensures Split(data, [c]) == Some(Words(data, c))
    decreases |data|
  {
    hide Words, Trim, FirstSep;
    if data == "" {
      SplitEmpty(c);
    } else {
      var i :| 0 <= i < |data| && data[i] != c;
      TrimmedEnds(data, c, i);
      var d := Trim(data, [c]).value;
      WordsTrim(data, c);
      FirstOfOne(d, c);
      match FirstSep(d, [c]) {
        case None => OneWord(d, c);
        case Some(x) =>
          WordsAtSep(d, c, x);
          SplitIsWords(Trim(d[x + 1..], [c]).value, c);
      }
    }
  }

  lemma SplitEmpty(c: char)
    ensures Split("", [c]) == Some([]) && Words("", c) == []
  {}

  /** A trimmed string neither begins nor ends with the separator. */
  lemma TrimmedEnds(data: string, c: char, i: nat)
    requires i < |data| && data[i] != c
    ensures Trim(data, [c]).Some?
    ensures var d := Trim(data, [c]).value; d != "" && d[0] != c && d[|d| - 1] != c
  {
    hide Trim;
    NotAllSeparators(data, c, i);
    TrimThrows(data, [c]);
    var d := Trim(data, [c]).value;
    assert d[0] !in [c] && d[|d| - 1] !in [c];
  }

  lemma FirstOfOne(d: string, c: char)
    ensures FirstSep(d, [c]) == None ==> c !in d
    ensures FirstSep(d, [c]).Some? ==>
              FirstSep(d, [c]).value < |d| && d[FirstSep(d, [c]).value] == c && c !in d[..FirstSep(d, [c]).value]
  {
    assert [c][1..] == "";
  }

  lemma SplitIsWordsIfAny(data: string, c: char)
    requires Split(data, [c]).Some?
    ensures Split(data, [c]) == Some(Words(data, c))
  {
    SplitThrows(data, [c]);
    if data != "" {
      assert exists x :: x in data && x !in [c];
      var x :| x in data && x !in [c];
      var i :| 0 <= i < |data| && data[i] == x;
      assert data[i] != c;
    }
    SplitIsWords(data, c);
  }

  /** Words are made of characters of the string. */
  lemma {:induction false} WordsChars(data: string, c: char, w: string, x: char)
    requires w in Words(data, c) && x in w
    ensures x in data
    decreases |data|
  {
    if data[0] == c {
      WordsChars(data[1..], c, w, x);
    } else {
      var n := Lead(data, c);
      if w != data[..n] {
        WordsChars(data[n..], c, w, x);
      }
    }
  }

  /** Tokens with one separator between each two. */
  function Join(tokens: seq<string>, c: char): string {
    if tokens == [] then ""
    else if |tokens| == 1 then tokens[0]
    else tokens[0] + [c] + Join(tokens[1..], c)
  }

  lemma {:induction false} WordsOfJoin(tokens: seq<string>, c: char)
    requires forall t <- tokens :: t != "" && c !in t
    ensures Words(Join(tokens, c), c) == tokens
  {
    if |tokens| == 1 {
      assert tokens[0] in tokens;
      OneWord(tokens[0], c);
    } else if |tokens| > 1 {
      var a, b := tokens[0], Join(tokens[1..], c);
      assert a in tokens && forall t <- tokens[1..] :: t in tokens;
      WordsOfJoin(tokens[1..], c);
      assert a + [c] + b == a + ([c] + b) && ([c] + b)[1..] == b;
      WordsFirst(a, [c] + b, c);
    }
  }

  /** Splitting is the inverse of joining. */
  lemma SplitOfJoin(tokens: seq<string>, c: char)
    requires forall t <- tokens :: t != "" && c !in t
    ensures Split(Join(tokens, c), [c]) == Some(tokens)
  {
    WordsOfJoin(tokens, c);
    if tokens != [] {
      var j := Join(tokens, c);
      assert tokens[0] in tokens && tokens[0][0] in tokens[0];
      assert j[0] == tokens[0][0] && j[0] != c;
    }
    SplitIsWords(Join(tokens, c), c);
  }

  // ------------------------------------------------------------------ the code's loops

  method TrimData(data0: string, sep: string) returns (r: Option<string>)
    ensures r == Trim(data0, sep)
  {
    var data := data0;
    if data == "" { return Some(""); }
    while true
      invariant Front(data, sep) == Front(data0, sep)
      decreases |data|
    {
      if data == "" { return None; }
      if data[0] !in sep { break; }
      data := data[1..];
    }
    while true
      invariant data != "" && data[0] !in sep && Back(data, sep) == Back(Front(data0, sep).value, sep)
      decreases |data|
    {
      if data[|data| - 1] !in sep { break; }
      data := data[..|data| - 1];
    }
    return Some(data);
  }

  method FindSep(data: string, sep: string) returns (r: Option<nat>)
    ensures r == FirstSep(data, sep)
  {
    var i := 0;
    assert sep[0..] == sep;
    while i < |sep|
      invariant i <= |sep| && FirstSep(data, sep[i..]) == FirstSep(data, sep)
    {
      assert sep[i..][0] == sep[i] && sep[i..][1..] == sep[i + 1..];
      r := IndexOf(data, sep[i]);
      if r.Some? { return; }
      i := i + 1;
    }
    return None;
  }

  lemma PrependTwice(v: seq<string>, token: string, more: Option<seq<string>>)
    ensures Prepend(v, Prepend([token], more)) == Prepend(v + [token], more)
  {
    if more.Some? {
      assert v + ([token] + more.value) == v + [token] + more.value;
    }
  }

  lemma PrependIs(v: seq<string>, more: seq<string>)
    ensures Prepend(v, Some(more)) == Some(v + more) && Prepend(v, None) == None
  {}

  method SplitData(data0: string, sep: string) returns (r: Option<seq<string>>)
    ensures r == Split(data0, sep)
  {
    var data, v: seq<string> := data0, [];
    hide Trim, FirstSep, Prepend;
    NothingSplit(Split(data, sep));
    while true
      invariant Split(data0, sep) == Prepend(v, Split(data, sep))
      decreases |data|
    {
      PrependIs(v, []);
      var t := TrimData(data, sep);
      if t == None { return None; }
      var d := t.value;
      if d == "" { assert v + [] == v; return Some(v); }
      PrependIs(v, [d]);
      var x := FindSep(d, sep);
      if x == None { return Some(v + [d]); }
      var token := TrimData(d[..x.value], sep);
      var rest := TrimData(d[x.value + 1..], sep);
      if token == None || rest == None { return None; }
      assert TurnOf(data, sep) == Goes(token.value, rest.value);
      PrependTwice(v, token.value, Split(rest.value, sep));
      v, data := v + [token.value], rest.value;
    }
  }

  lemma NothingSplit(more: Option<seq<string>>)
    ensures Prepend([], more) == more
  {
    if more.Some? {
      assert [] + more.value == more.value;
    }
  }
}
