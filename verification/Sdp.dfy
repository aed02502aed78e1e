/** The rtpmap attributes of session descriptions (bonephone/SDPManager.java). */
module SdpManager {
  import opened Options
  import opened Tokenizers

  datatype Codec = Codec(shortname: string, freq: int, channels: int, pt: int)

  predicate IsInt(n: int) { -0x8000_0000 <= n < 0x8000_0000 }

  // ---------------------------------------------------------------------- numbers

  predicate IsDigit(c: char) { '0' <= c <= '9' }

  function Digit(d: nat): (c: char)
    requires d < 10
    ensures IsDigit(c) && c as int - '0' as int == d
  {
    (d + '0' as int) as char
  }

  function PrintNat(n: nat): (s: string)
    ensures s != "" && forall c <- s :: IsDigit(c)
  {
    if n < 10 then [Digit(n)] else PrintNat(n / 10) + [Digit(n % 10)]
  }

  /** The conversion of a number to a string. */
  function Print(n: int): (s: string)
    ensures s != "" && ' ' !in s && '/' !in s
  {
    if n < 0 then "-" + PrintNat(-n) else PrintNat(n)
  }

  function Digits(s: string): Option<nat> {
    if s == "" then Some(0)
    else
      var last := s[|s| - 1];
      if !IsDigit(last) then None
      else
        match Digits(s[..|s| - 1])
        case None => None
        case Some(n) => Some(10 * n + (last as int - '0' as int))
  }

  /** Integer.parseInt; `None` stands for its exception. */
  function ParseInt(s: string): Option<int> {
    if s == "" || s == "-" then None
    else
      match Digits(if s[0] == '-' then s[1..] else s)
      case None => None
      case Some(n) =>
        var v: int := if s[0] == '-' then -(n as int) else n;
        if IsInt(v) then Some(v) else None
  }

  lemma {:induction false} DigitsOfPrint(n: nat)
    ensures Digits(PrintNat(n)) == Some(n)
  {
    if n >= 10 {
      DigitsOfPrint(n / 10);
      var s := PrintNat(n);
      assert s[..|s| - 1] == PrintNat(n / 10);
    } else {
      assert [Digit(n)][..0] == "";
    }
  }

  /** A printed number is read back exactly if it is an int. */
  lemma ParseOfPrint(n: int)
    ensures ParseInt(Print(n)) == if IsInt(n) then Some(n) else None
  {
    hide PrintNat, Digits;
    if n < 0 {
      DigitsOfPrint(-n);
      assert Print(n)[1..] == PrintNat(-n);
    } else {
      DigitsOfPrint(n);
      assert IsDigit(PrintNat(n)[0]) by { assert PrintNat(n)[0] in PrintNat(n); }
    }
  }

  // ----------------------------------------------------------------------- rtpmap

  /** The text that build prints for a codec. */
  function Rtpmap(cd: Codec): string {
    var text := Print(cd.pt) + " " + cd.shortname + "/" + Print(cd.freq);
    if cd.channels > 1 then text + "/" + Print(cd.channels) else text
  }

  /** The result of convertRtpmap: an exception of the tokenizer, null, or a codec. */
  datatype Converted = Thrown | Null | Known(cd: Codec)

  /** convertRtpmap after the first split. */
  function ConvertTokens(token1: seq<string>): Converted {
    if |token1| != 2 then Null
    else
      match Split(token1[1], "/")
      case None => Thrown
      case Some(token2) =>
        match ParseInt(token1[0])
        case None => Null
        case Some(pt) =>
          if |token2| < 1 then Null
          else if |token2| < 2 then Known(Codec(token2[0], 8000, 1, pt))
          else
            match ParseInt(token2[1])
            case None => Null
            case Some(freq) =>
              if |token2| < 3 then Known(Codec(token2[0], freq, 1, pt))
              else
                match ParseInt(token2[2])
                case None => Null
                case Some(channels) => Known(Codec(token2[0], freq, channels, pt))
  }

  function ConvertRtpmap(rtpmap: string): Converted {
    match Split(rtpmap, " ")
    case None => Thrown
    case Some(token1) => ConvertTokens(token1)
  }

  predicate PlainName(name: string) {
    name != "" && ' ' !in name && '/' !in name
  }

  function Tokens2(cd: Codec): seq<string> {
    [cd.shortname, Print(cd.freq)] + if cd.channels > 1 then [Print(cd.channels)] else []
  }

  lemma JoinTwo(a: string, b: string, c: char)
    ensures Join([a, b], c) == a + [c] + b
  {
    assert [a, b][1..] == [b];
  }

  lemma RtpmapIsJoin(cd: Codec)
    ensures Rtpmap(cd) == Join([Print(cd.pt), Join(Tokens2(cd), '/')], ' ')
  {
    var a, b, c, d := Print(cd.pt), cd.shortname, Print(cd.freq), Print(cd.channels);
    JoinTwo(a, Join(Tokens2(cd), '/'), ' ');
    if cd.channels > 1 {
      assert Tokens2(cd) == [b, c, d] && [b, c, d][1..] == [c, d];
      JoinTwo(c, d, '/');
      assert b + ['/'] + (c + ['/'] + d) == b + ['/'] + c + ['/'] + d;
    } else {
      assert Tokens2(cd) == [b, c];
      JoinTwo(b, c, '/');
    }
  }

  /** Good tokens for the slash, and for the space when they have been joined. */
  lemma TokensOk(cd: Codec)
    requires PlainName(cd.shortname)
    ensures forall t <- Tokens2(cd) :: t != "" && '/' !in t && ' ' !in t
    ensures Join(Tokens2(cd), '/') != "" && ' ' !in Join(Tokens2(cd), '/')
  {
    hide Print;
    JoinChars(Tokens2(cd), '/', ' ');
  }

  lemma {:induction false} JoinChars(tokens: seq<string>, c: char, x: char)
    requires x != c && forall t <- tokens :: x !in t
    ensures x !in Join(tokens, c)
    ensures tokens != [] && tokens[0] != "" ==> Join(tokens, c) != ""
  {
    if |tokens| > 1 {
      assert forall t <- tokens[1..] :: t in tokens;
      assert tokens[0] in tokens;
      JoinChars(tokens[1..], c, x);
    }
  }

  /** What comes out of convertRtpmap has a plain name, whatever goes in. */
  lemma NameIsPlain(rtpmap: string)
    requires ConvertRtpmap(rtpmap).Known?
    ensures PlainName(ConvertRtpmap(rtpmap).cd.shortname)
  {
    assert [' '] == " " && ['/'] == "/";
    SplitIsWordsIfAny(rtpmap, ' ');
    var t := Split(rtpmap, " ").value[1];
    SplitIsWordsIfAny(t, '/');
    var name := Split(t, "/").value[0];
    assert t in Words(rtpmap, ' ') && name in Words(t, '/');
    if ' ' in name {
      WordsChars(t, '/', name, ' ');
    }
  }

  /** A payload type, a space, and a name, a frequency and a number of channels between slashes:
      8000 Hz and one channel where they are missing, nothing further behind them, and no codec if
      one of the numbers is none. */
  lemma ConvertJoined(a: string, tokens: seq<string>)
    requires tokens != [] && a != "" && ' ' !in a
    requires forall t <- tokens :: t != "" && '/' !in t && ' ' !in t
    ensures var pt, freq, channels := ParseInt(a), FieldOr(tokens, 1, 8000), FieldOr(tokens, 2, 1);
            ConvertRtpmap(a + " " + Join(tokens, '/')) ==
              if pt == None || freq == None || channels == None then Null
              else Known(Codec(tokens[0], freq.value, channels.value, pt.value))
  {
    hide Split, Join, ParseInt;
    var j := Join(tokens, '/');
    JoinChars(tokens, '/', ' ');
    assert tokens[0] in tokens;
    JoinTwo(a, j, ' ');
    SplitOfJoin([a, j], ' ');
    SplitOfJoin(tokens, '/');
    assert [' '] == " " && ['/'] == "/";
  }

  /** There is no codec in any other number of words. */
  lemma ConvertWords(words: seq<string>)
    requires |words| != 2 && forall w <- words :: w != "" && ' ' !in w
    ensures ConvertRtpmap(Join(words, ' ')) == Null
  {
    hide Split, Join;
    SplitOfJoin(words, ' ');
    assert [' '] == " ";
  }

  /** The number in a field, or what it is when there is no such field. */
  function FieldOr(tokens: seq<string>, i: nat, otherwise: int): Option<int> {
    if i < |tokens| then ParseInt(tokens[i]) else Some(otherwise)
  }

  lemma ConvertPlain(cd: Codec)
    requires IsInt(cd.pt) && IsInt(cd.freq) && IsInt(cd.channels) && PlainName(cd.shortname)
    ensures ConvertRtpmap(Rtpmap(cd)) == Known(cd.(channels := if cd.channels > 1 then cd.channels else 1))
  {
    hide Rtpmap, Split, ParseInt, Join, Print, ConvertRtpmap;
    TokensOk(cd);
    RtpmapIsJoin(cd);
    JoinTwo(Print(cd.pt), Join(Tokens2(cd), '/'), ' ');
    ParseOfPrint(cd.pt);
    ParseOfPrint(cd.freq);
    ParseOfPrint(cd.channels);
    ConvertJoined(Print(cd.pt), Tokens2(cd));
  }

  /** Printing and converting give back the descriptor exactly when its name is not empty and
      has neither space nor slash, and it has at least one channel. */
  lemma RtpmapRoundTrip(cd: Codec)
    requires IsInt(cd.pt) && IsInt(cd.freq) && IsInt(cd.channels)
    ensures ConvertRtpmap(Rtpmap(cd)) == Known(cd) <==> PlainName(cd.shortname) && cd.channels >= 1
  {
    hide ConvertRtpmap, Rtpmap;
    if PlainName(cd.shortname) {
      ConvertPlain(cd);
    } else if ConvertRtpmap(Rtpmap(cd)) == Known(cd) {
      NameIsPlain(Rtpmap(cd));
    }
  }

  // ------------------------------------------------------------- the codec database

  /** The first entry for a payload type. */
  function Lookup(db: seq<Codec>, pt: int): (r: Option<Codec>)
    ensures r.Some? ==> r.value in db && r.value.pt == pt
    ensures r == None ==> forall cd <- db :: cd.pt != pt
  {
    if db == [] then None else if db[0].pt == pt then Some(db[0]) else Lookup(db[1..], pt)
  }

  class CodecDescriptorDB {
    var db: seq<Codec>

    constructor (cda: seq<Codec>)
      ensures db == cda
    {
      db := cda;
    }

    method GetByPayloadType(pt: int) returns (r: Option<Codec>)
      ensures r == Lookup(db, pt)
    {
      var i := 0;
      assert db[0..] == db;
      while i < |db|
        invariant i <= |db| && Lookup(db, pt) == Lookup(db[i..], pt)
      {
        if db[i].pt == pt { return Some(db[i]); }
        i := i + 1;
      }
      return None;
    }

    /** Afterwards `cd` is what its payload type means, and no other type has changed. */
    method Update(cd: Codec)
      modifies this
      ensures Lookup(db, cd.pt) == Some(cd)
      ensures forall q :: q != cd.pt ==> Lookup(db, q) == Lookup(old(db), q)
    {
      ghost var was := db;
      var i := 0;
      while i < |db|
        invariant i <= |db| && db == was && forall j :: 0 <= j < i ==> db[j].pt != cd.pt
      {
        if db[i].pt == cd.pt {
          db := db[i := cd];
          forall q ensures Lookup(db, q) == if q == cd.pt then Some(cd) else Lookup(was, q) {
            ReplacedAt(was, i, cd, q);
          }
          return;
        }
        i := i + 1;
      }
      db := db + [cd];
      forall q ensures Lookup(db, q) == if q == cd.pt then Some(cd) else Lookup(was, q) {
        Appended(was, cd, q);
      }
    }
  }

  lemma {:induction false} ReplacedAt(db: seq<Codec>, i: nat, cd: Codec, q: int)
    requires i < |db| && db[i].pt == cd.pt && forall j :: 0 <= j < i ==> db[j].pt != cd.pt
    ensures Lookup(db[i := cd], q) == if q == cd.pt then Some(cd) else Lookup(db, q)
    decreases i
  {
    if i > 0 {
      assert db[i := cd][1..] == db[1..][i - 1 := cd];
      ReplacedAt(db[1..], i - 1, cd, q);
    } else {
      assert db[0 := cd][1..] == db[1..];
    }
  }

  lemma {:induction false} Appended(db: seq<Codec>, cd: Codec, q: int)
    requires forall e <- db :: e.pt != cd.pt
    ensures Lookup(db + [cd], q) == if q == cd.pt then Some(cd) else Lookup(db, q)
  {
    if db != [] {
      assert (db + [cd])[1..] == db[1..] + [cd];
      Appended(db[1..], cd, q);
    }
  }
}
