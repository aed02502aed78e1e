/**
  Configuration files (bonephone/Configuration.java).  A byte of a file is one character here,
  and files can always be read and written.
 */
module Configurations {
  import opened Options
  import opened Tokenizers

  /** NamedValue: a value may be null. */
  datatype Pair = Pair(name: string, value: Option<string>)

  const EMPTY := "-empty-"

  // --------------------------------------------------------------- String.trim

  predicate Blank(c: char) { c <= ' ' }

  function TrimLeft(s: string): string {
    if s != "" && Blank(s[0]) then TrimLeft(s[1..]) else s
  }

  function TrimRight(s: string): (r: string)
    ensures r <= s
  {
    if s != "" && Blank(s[|s| - 1]) then TrimRight(s[..|s| - 1]) else s
  }

  function Strip(s: string): string { TrimRight(TrimLeft(s)) }

  /** Neither the first nor the last character is blank. */
  predicate Stripped(s: string) {
    s == "" || (!Blank(s[0]) && !Blank(s[|s| - 1]))
  }

  lemma {:induction false} TrimLeftIs(s: string)
    ensures var r := TrimLeft(s);
            |r| <= |s| && r == s[|s| - |r|..] && (r == "" || !Blank(r[0]))
    decreases |s|
  {
    if s != "" && Blank(s[0]) {
      TrimLeftIs(s[1..]);
    }
  }

  lemma {:induction false} TrimRightIs(s: string)
    ensures var r := TrimRight(s);
            r == "" || !Blank(r[|r| - 1])
    decreases |s|
  {
    if s != "" && Blank(s[|s| - 1]) {
      TrimRightIs(s[..|s| - 1]);
    }
  }

  lemma StripIs(s: string)
    ensures Stripped(Strip(s)) && forall c <- Strip(s) :: c in s
  {
    TrimLeftIs(s);
    TrimRightIs(TrimLeft(s));
  }

  lemma StripNothing(s: string)
    requires Stripped(s)
    ensures Strip(s) == s
  {}

  lemma {:induction false} StripBlankTail(s: string)
    requires s != "" && !Blank(s[0]) && !Blank(s[|s| - 1])
    ensures Strip(s + " ") == s
  {
    var t := s + " ";
    assert t[..|s|] == s && t[0] == s[0] && t[|s|] == ' ';
    assert TrimLeft(t) == t && TrimRight(t) == TrimRight(s) && TrimRight(s) == s;
  }

  // --------------------------------------------------------------------- parsing

  /** What a complete line adds to the list: at most one pair. */
  function OfLine(line: string): seq<Pair> {
    var s := Strip(line);
    if s == "" then [Pair(EMPTY, None)]
    else if s[0] == '#' then [Pair("#", Some(s[1..]))]
    else
      match IndexOf(s, ':')
      case None => []
      case Some(i) => [Pair(Strip(s[..i]), Some(Strip(s[i + 1..])))]
  }

  /** The loop of init: `line` has been read of the line that is not complete yet. */
  function ParseFrom(text: string, line: string): seq<Pair>
    decreases |text|
  {
    if text == "" then []
    else if text[0] == '\r' then ParseFrom(text[1..], line)
    else if text[0] != '\n' then ParseFrom(text[1..], line + [text[0]])
    else OfLine(line) + ParseFrom(text[1..], "")
  }

  function Parse(text: string): seq<Pair> { ParseFrom(text, "") }

  predicate AllBlank(s: string) { forall c <- s :: Blank(c) }

  /** Trimming takes off exactly the blanks around. */
  lemma StripOf(a: string, s: string, b: string)
    requires AllBlank(a) && Stripped(s) && AllBlank(b)
    ensures Strip(a + s + b) == s
  {
    TrimLeftOf(a, s + b);
    assert a + (s + b) == a + s + b;
    if s == "" {
      assert s + b == b && "" + b == b && b + "" == b;
      TrimLeftOf(b, "");
      assert TrimLeft(s + b) == "";
    } else {
      TrimRightOf(s, b);
    }
  }

  lemma {:induction false} TrimLeftOf(a: string, s: string)
    requires AllBlank(a)
    ensures TrimLeft(a + s) == TrimLeft(s)
    decreases |a|
  {
    if a == "" {
      assert a + s == s;
    } else {
      assert a[0] in a && (a + s)[0] == a[0] && (a + s)[1..] == a[1..] + s;
      TrimLeftOf(a[1..], s);
    }
  }

  lemma {:induction false} TrimRightOf(s: string, b: string)
    requires s != "" && !Blank(s[|s| - 1]) && AllBlank(b)
    ensures TrimRight(s + b) == s
    decreases |b|
  {
    if b == "" {
      assert s + b == s;
    } else {
      var c := b[..|b| - 1];
      assert b[|b| - 1] in b && (s + b)[|s + b| - 1] == b[|b| - 1] && (s + b)[..|s + b| - 1] == s + c;
      TrimRightOf(s, c);
    }
  }

  /** A blank line is marked as such; a line that begins with `#` is a comment; one that does not and
      has no colon is dropped without a word. */
  lemma PlainLine(a: string, s: string, b: string)
    requires AllBlank(a) && Stripped(s) && AllBlank(b) && ((s != "" && s[0] == '#') || ':' !in s)
    ensures OfLine(a + s + b) == if s == "" then [Pair(EMPTY, None)]
                                 else if s[0] == '#' then [Pair("#", Some(s[1..]))] else []
  {
    StripOf(a, s, b);
    hide Strip;
  }

  /** Any other line gives what stands before its first colon and what stands behind it, both
      without the blanks around them. */
  lemma KeyLine(a: string, name: string, b: string, c: string, value: string, d: string)
    requires AllBlank(a) && AllBlank(b) && AllBlank(c) && AllBlank(d)
    requires Stripped(name) && Stripped(value) && ':' !in name && (name == "" || name[0] != '#')
    ensures OfLine(a + name + b + ":" + c + value + d) == [Pair(name, Some(value))]
  {
    hide OfLine, Strip, Stripped;
    var front, before := if name == "" then a + b else a, if name == "" then "" else name + b;
    var behind, rear := if value == "" then "" else c + value, if value == "" then c + d else d;
    assert front + before == a + name + b && behind + rear == c + value + d;
    assert front + (before + ":" + behind) + rear == a + name + b + ":" + c + value + d by {
      assert front + (before + ":" + behind) + rear == (front + before) + ":" + (behind + rear);
    }
    KeyBefore(name, b);
    KeyBehind(c, value);
    KeyOf(front, before, behind, rear);
  }

  lemma KeyBefore(name: string, b: string)
    requires AllBlank(b) && Stripped(name) && ':' !in name && (name == "" || name[0] != '#')
    ensures var before := if name == "" then "" else name + b;
            ':' !in before && Strip(before) == name && (before == "" || (before[0] != '#' && !Blank(before[0])))
  {
    var before := if name == "" then "" else name + b;
    StripOf("", name, if name == "" then "" else b);
    assert "" + name + (if name == "" then "" else b) == before;
  }

  lemma KeyBehind(c: string, value: string)
    requires AllBlank(c) && Stripped(value)
    ensures var behind := if value == "" then "" else c + value;
            Strip(behind) == value && (behind == "" || !Blank(behind[|behind| - 1]))
  {
    var behind := if value == "" then "" else c + value;
    StripOf(if value == "" then "" else c, value, "");
    assert (if value == "" then "" else c) + value + "" == behind;
    assert value != "" ==> behind[|behind| - 1] == value[|value| - 1];
  }

  lemma KeyOf(a: string, before: string, behind: string, d: string)
    requires AllBlank(a) && AllBlank(d) && ':' !in before
    requires before == "" || (before[0] != '#' && !Blank(before[0]))
    requires behind == "" || !Blank(behind[|behind| - 1])
    ensures OfLine(a + (before + ":" + behind) + d) == [Pair(Strip(before), Some(Strip(behind)))]
  {
    var s := before + ":" + behind;
    assert s[|before|] == ':' && s[..|before|] == before && s[|before| + 1..] == behind;
    assert Stripped(s) && s[0] != '#';
    StripOf(a, s, d);
    FirstColon(s, |before|);
    hide Strip, Stripped;
  }

  /** The list is read line by line. */
  lemma ParseByLines(w: string, newline: string, rest: string)
    requires OneLine(w) && IsNewline(newline)
    ensures Parse(w + newline + rest) == OfLine(w) + Parse(rest)
  {
    ParseLine(w, newline, rest, "");
    assert "" + w == w;
  }

  /** A last line that does not end is not read. */
  lemma {:induction false} LastLineLost(text: string, tail: string, line: string)
    requires '\n' !in tail
    ensures ParseFrom(text + "\n" + tail, line) == ParseFrom(text + "\n", line)
    decreases |text|
  {
    var long, short := text + "\n" + tail, text + "\n";
    if text == "" {
      assert long[1..] == tail && short[1..] == "" && long[0] == short[0] == '\n';
      NoLine(tail, "");
      NothingParsed();
    } else {
      assert long[1..] == text[1..] + "\n" + tail && short[1..] == text[1..] + "\n";
      assert long[0] == short[0] == text[0];
      LastLineLost(text[1..], tail,
                   if text[0] == '\r' then line else if text[0] == '\n' then "" else line + [text[0]]);
    }
  }

  lemma {:induction false} NoLine(tail: string, line: string)
    requires '\n' !in tail
    ensures ParseFrom(tail, line) == []
    decreases |tail|
  {
    if tail != "" {
      assert tail[0] in tail;
      NoLine(tail[1..], if tail[0] == '\r' then line else line + [tail[0]]);
    }
  }

  // --------------------------------------------------------------------- writing

  /** `null` prints as it does in Java. */
  function Text(value: Option<string>): string { if value == None then "null" else value.value }

  function LineOf(p: Pair): string {
    if p.name == "#" then "#" + Text(p.value)
    else if p.name == EMPTY then ""
    else p.name + ": " + Text(p.value)
  }

  /** writeOut, on a platform whose lines end in `newline`. */
  function Write(pairs: seq<Pair>, newline: string): string {
    if pairs == [] then "" else LineOf(pairs[0]) + newline + Write(pairs[1..], newline)
  }

  predicate IsNewline(s: string) { s == "\n" || s == "\r\n" }

  predicate OneLine(s: string) { '\n' !in s && '\r' !in s }

  /** What the parser can produce. */
  ghost predicate Canonical(p: Pair) {
    && OneLine(p.name)
    && if p.value == None then p.name == EMPTY
       else
         var v := p.value.value;
         && OneLine(v)
         && if p.name == "#" then v == "" || !Blank(v[|v| - 1])
            else Stripped(v) && Stripped(p.name) && ':' !in p.name && (p.name == "" || p.name[0] != '#')
  }

  lemma PartsOf(s: string, i: nat)
    requires Stripped(s) && OneLine(s) && i < |s| && s[i] == ':' && ':' !in s[..i] && s[0] != '#'
    ensures Canonical(Pair(Strip(s[..i]), Some(Strip(s[i + 1..]))))
  {
    var l, r := Strip(s[..i]), Strip(s[i + 1..]);
    StripIs(s[..i]);
    StripIs(s[i + 1..]);
    if i > 0 {
      assert s[..i][0] == s[0];
      assert TrimLeft(s[..i]) == s[..i];
      assert l <= s[..i];
    }
    assert forall c <- l :: c in s[..i] && c in s;
    assert forall c <- r :: c in s[i + 1..] && c in s;
  }

  lemma OfLineCanonical(line: string)
    requires OneLine(line)
    ensures forall p <- OfLine(line) :: Canonical(p)
  {
    var s := Strip(line);
    StripIs(line);
    if s != "" {
      if s[0] == '#' {
        assert forall c <- s[1..] :: c in s;
        assert s[1..] == "" || s[1..][|s| - 2] == s[|s| - 1];
      } else if ':' in s {
        var i := IndexOf(s, ':').value;
        assert forall j :: 0 <= j < i ==> s[j] != ':';
        PartsOf(s, i);
      }
    }
  }

  lemma {:induction false} ParseCanonical(text: string, line: string)
    requires OneLine(line)
    ensures forall p <- ParseFrom(text, line) :: Canonical(p)
    decreases |text|
  {
    if text != "" {
      if text[0] == '\r' {
        ParseCanonical(text[1..], line);
      } else if text[0] != '\n' {
        ParseCanonical(text[1..], line + [text[0]]);
      } else {
        OfLineCanonical(line);
        ParseCanonical(text[1..], "");
      }
    }
  }

  /** What becomes of a pair that is written and read back. */
  function Reread(p: Pair): Pair { if p.name == EMPTY then Pair(EMPTY, None) else p }

  lemma OfWrittenLine(p: Pair)
    requires Canonical(p)
    ensures OneLine(LineOf(p)) && OfLine(LineOf(p)) == [Reread(p)]
  {
    if p.name == "#" {
      var s := "#" + p.value.value;
      StripNothing(s);
      assert s[1..] == p.value.value;
    } else if p.name != EMPTY {
      OfWrittenPair(p.name, p.value.value);
    }
  }

  /** A line that trims to a key, a colon and `tail`. */
  lemma OfKeyLine(line: string, name: string, tail: string)
    requires Strip(line) == name + ":" + tail
    requires Stripped(name) && ':' !in name && (name == "" || name[0] != '#')
    ensures OfLine(line) == [Pair(name, Some(Strip(tail)))]
  {
    var s := name + ":" + tail;
    assert s[0] != '#';
    assert s[..|name|] == name && s[|name|] == ':' && s[|name| + 1..] == tail;
    FirstColon(s, |name|);
    StripNothing(name);
    hide Strip;
  }

  lemma {:induction false} FirstColon(s: string, n: nat)
    requires n < |s| && s[n] == ':' && ':' !in s[..n]
    ensures IndexOf(s, ':') == Some(n)
  {
    if n > 0 {
      assert s[0] in s[..n] && s[1..][..n - 1] == s[..n][1..];
      FirstColon(s[1..], n - 1);
    }
  }

  lemma OfWrittenPair(name: string, value: string)
    requires Stripped(name) && Stripped(value) && ':' !in name && (name == "" || name[0] != '#')
    ensures OfLine(name + ": " + value) == [Pair(name, Some(value))]
  {
    var line := name + ": " + value;
    if value == "" {
      StripBlankTail(name + ":");
      assert line == name + ":" + " " && name + ":" == name + ":" + "";
      OfKeyLine(line, name, "");
    } else {
      assert line[|line| - 1] == value[|value| - 1];
      StripNothing(line);
      assert line == name + ":" + (" " + value);
      OfKeyLine(line, name, " " + value);
      assert (" " + value)[1..] == value;
      StripNothing(value);
    }
  }

  lemma {:induction false} ParseLine(w: string, newline: string, rest: string, line: string)
    requires OneLine(w) && IsNewline(newline)
    ensures ParseFrom(w + newline + rest, line) == OfLine(line + w) + ParseFrom(rest, "")
    decreases |w|
  {
    var text := w + newline + rest;
    if w == "" {
      assert line + w == line && text == newline + rest;
      if newline == "\r\n" {
        assert text[1..] == "\n" + rest && ("\n" + rest)[1..] == rest;
      } else {
        assert text[1..] == rest;
      }
    } else {
      assert text[0] == w[0] && w[0] in w;
      assert text[1..] == w[1..] + newline + rest;
      assert line + [w[0]] + w[1..] == line + w;
      ParseLine(w[1..], newline, rest, line + [w[0]]);
    }
  }

  lemma NothingParsed()
    ensures ParseFrom("", "") == []
  {}

  lemma {:induction false} ParseOfWrite(pairs: seq<Pair>, newline: string)
    requires IsNewline(newline) && forall p <- pairs :: Canonical(p)
    ensures Parse(Write(pairs, newline)) == seq(|pairs|, i requires 0 <= i < |pairs| => Reread(pairs[i]))
  {
    hide Reread, LineOf, OfLine, ParseFrom, Canonical;
    if pairs == [] {
      NothingParsed();
    } else {
      var p, rest := pairs[0], pairs[1..];
      OfWrittenLine(p);
      ParseLine(LineOf(p), newline, Write(rest, newline), "");
      assert "" + LineOf(p) == LineOf(p);
      ParseOfWrite(rest, newline);
    }
  }

  /** For every text, reading, writing and reading again gives the same list of pairs, comments
      and blank lines as the first reading, exactly when no key with a value is spelled as the
      mark of a blank line. */
  lemma ReadWriteRead(text: string, newline: string)
    requires IsNewline(newline)
    ensures Parse(Write(Parse(text), newline)) == Parse(text)
            <==> forall p <- Parse(text) :: p.name == EMPTY ==> p.value == None
  {
    var ps := Parse(text);
    ParseCanonical(text, "");
    ParseOfWrite(ps, newline);
    var qs := seq(|ps|, i requires 0 <= i < |ps| => Reread(ps[i]));
    if forall p <- ps :: p.name == EMPTY ==> p.value == None {
      assert forall i :: 0 <= i < |ps| ==> qs[i] == ps[i];
    } else {
      var i :| 0 <= i < |ps| && ps[i].name == EMPTY && ps[i].value != None;
      assert qs[i] != ps[i];
    }
  }

  // ------------------------------------------------------------------ the code's object

  /** The first pair with this name. */
  function IndexOfKey(pairs: seq<Pair>, key: string): (r: int)
    ensures r == -1 ==> forall p <- pairs :: p.name != key
    ensures r != -1 ==> 0 <= r < |pairs| && pairs[r].name == key && forall i :: 0 <= i < r ==> pairs[i].name != key
  {
    if pairs == [] then -1
    else if pairs[0].name == key then 0
    else
      var r := IndexOfKey(pairs[1..], key);
      if r == -1 then -1 else r + 1
  }

  class Configuration {
    var pairs: seq<Pair>

    /** init, given what the file holds. */
    constructor (text: string)
      ensures pairs == Parse(text)
    {
      var found: seq<Pair>, line, i := [], "", 0;
      assert text[0..] == text;
      while i < |text|
        invariant i <= |text| && found + ParseFrom(text[i..], line) == Parse(text)
      {
        var b, rest := text[i], text[i + 1..];
        assert text[i..][0] == b && text[i..][1..] == rest;
        if b != '\r' {
          if b != '\n' {
            line := line + [b];
          } else {
            var more := OfLine(line);
            assert found + (more + ParseFrom(rest, "")) == found + more + ParseFrom(rest, "");
            found, line := found + more, "";
          }
        }
        i := i + 1;
      }
      assert found + [] == found;
      pairs := found;
    }

    method GetIndex(key: string) returns (r: int)
      ensures r == IndexOfKey(pairs, key)
    {
      var i := 0;
      while i < |pairs|
        invariant i <= |pairs| && forall j :: 0 <= j < i ==> pairs[j].name != key
      {
        if pairs[i].name == key { return i; }
        i := i + 1;
      }
      return -1;
    }

    /** An unknown key has the empty string as its value. */
    function Value(key: string): (r: Option<string>)
      reads this
      ensures (forall p <- pairs :: p.name != key) ==> r == Some("")
      ensures forall i :: 0 <= i < |pairs| && pairs[i].name == key ==>
                            r == pairs[i].value || exists j :: 0 <= j < i && pairs[j].name == key
    {
      var i := IndexOfKey(pairs, key);
      if i == -1 then Some("") else pairs[i].value
    }

    /** The value changes for this key alone, and the keys keep their order. */
    method Set(key: string, value: string)
      modifies this
      ensures Value(key) == Some(value)
      ensures forall k :: k != key ==> Value(k) == old(Value(k))
      ensures var i := IndexOfKey(old(pairs), key);
              if i == -1 then pairs == old(pairs) + [Pair(key, Some(value))]
              else pairs == old(pairs)[i := Pair(key, Some(value))]
    {
      ghost var was := pairs;
      var i := GetIndex(key);
      if i == -1 {
        pairs := pairs + [Pair(key, Some(value))];
      } else {
        pairs := pairs[i := Pair(pairs[i].name, Some(value))];
      }
      forall k ensures IndexOfKey(pairs, k) == if k == key && i == -1 then |was| else IndexOfKey(was, k) {
        IndexIs(was, pairs, k);
      }
    }

    /** setUnset */
    method SetUnset(key: string, value: string) returns (done: bool)
      modifies this
      ensures done <==> key !in set p <- old(pairs) :: p.name
      ensures if done then pairs == old(pairs) + [Pair(key, Some(value))] && Value(key) == Some(value)
              else pairs == old(pairs)
    {
      ghost var was := pairs;
      var i := GetIndex(key);
      if i != -1 {
        assert pairs[i] in pairs;
        return false;
      }
      pairs := pairs + [Pair(key, Some(value))];
      IndexIs(was, pairs, key);
      return true;
    }

    /** writeOut */
    method WriteOut(newline: string) returns (text: string)
      ensures text == Write(pairs, newline)
    {
      var i := 0;
      text := "";
      WriteNext(pairs, newline, i, text);
      hide Write, LineOf;
      while i < |pairs|
        invariant i <= |pairs| && text + Write(pairs[i..], newline) == Write(pairs, newline)
      {
        WriteNext(pairs, newline, i, text);
        text := text + LineOf(pairs[i]) + newline;
        i := i + 1;
      }
      WriteNext(pairs, newline, i, text);
    }
  }

  lemma WriteNext(pairs: seq<Pair>, newline: string, i: nat, text: string)
    requires i <= |pairs|
    ensures if i == |pairs| then text + Write(pairs[i..], newline) == text
            else text + Write(pairs[i..], newline) == text + LineOf(pairs[i]) + newline + Write(pairs[i + 1..], newline)
    ensures "" + Write(pairs[0..], newline) == Write(pairs, newline)
  {
    assert pairs[0..] == pairs;
    hide LineOf;
    if i < |pairs| {
      var rest := Write(pairs[i + 1..], newline);
      assert pairs[i..][0] == pairs[i] && pairs[i..][1..] == pairs[i + 1..];
      assert text + (LineOf(pairs[i]) + newline + rest) == text + LineOf(pairs[i]) + newline + rest;
    }
  }

  /** Replacing a value or appending a new key moves no other key. */
  lemma {:induction false} IndexIs(was: seq<Pair>, now: seq<Pair>, key: string)
    requires |was| <= |now| <= |was| + 1
    requires forall i :: 0 <= i < |was| ==> now[i].name == was[i].name
    ensures IndexOfKey(was, key) != -1 ==> IndexOfKey(now, key) == IndexOfKey(was, key)
    ensures IndexOfKey(was, key) == -1 ==>
              IndexOfKey(now, key) == if |now| > |was| && now[|was|].name == key then |was| else -1
  {
    if was != [] && was[0].name != key {
      assert now[0].name == was[0].name;
      assert forall i :: 0 <= i < |was| - 1 ==>
               was[1..][i].name == was[i + 1].name && now[1..][i].name == now[i + 1].name;
      IndexIs(was[1..], now[1..], key);
    } else if was == [] && now != [] {
      assert now[1..] == [];
    }
  }
}
