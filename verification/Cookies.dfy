/**
 * The hand-written cookie parser of backend/src/app.ts, against the cookie string of section 4.2.1 of
 * RFC 6265 with percent-encoded values.
 */
module Cookies {
  import opened Basics
  import opened Text
  import opened PercentCoding

  type Jar = map<string, string>

  /**
   * `cookies[name] = value` on an object literal: assigning a string to the inherited `__proto__` accessor
   * leaves the object as it is.
   */
  function Assign(jar: Jar, name: string, value: string): Jar
  {
    if name == "__proto__" then jar else jar[name := value]
  }

  /** One pass of the `forEach` body; `None` when `decodeURIComponent` throws. */
  function Step(jar: Jar, cookie: string): Option<Jar>
  {
    var parts := Split(cookie, '=');
    var name := Trim(parts[0]);
    if |parts| >= 2 && name != "" && Trim(parts[1]) != "" then
      match Decode(Trim(parts[1]))
      case None => None
      case Some(value) => Some(Assign(jar, name, value))
    else Some(jar)
  }

  function Steps(jar: Jar, cookies: seq<string>): Option<Jar>
  {
    if cookies == [] then Some(jar)
    else
      match Steps(jar, cookies[..|cookies| - 1])
      case None => None
      case Some(before) => Step(before, cookies[|cookies| - 1])
  }

  /** What the middleware makes of a `Cookie` header. */
  function ParsedHeader(header: Option<string>): Option<Jar>
  {
    if header.None? || header.value == "" then Some(map[]) else Steps(map[], Split(header.value, ';'))
  }

  /** The middleware itself: split, loop, fill the record. */
  method ParseCookies(header: Option<string>) returns (result: Option<Jar>)
    ensures result == ParsedHeader(header)
  {
    var cookies: Jar := map[];
    if header.Some? && header.value != "" {
      var pieces := Split(header.value, ';');
      for i := 0 to |pieces|
        invariant Steps(map[], pieces[..i]) == Some(cookies)
      {
        assert pieces[..i + 1][..i] == pieces[..i];
        var parts := Split(pieces[i], '=');
        var name := Trim(parts[0]);
        var val := if |parts| >= 2 then Trim(parts[1]) else "";
        if name != "" && val != "" {
          var decoded := Decode(val);
          if decoded.None? {
            FailureStays(map[], pieces, i + 1);
            return None;
          }
          if name != "__proto__" {
            cookies := cookies[name := decoded.value];
          }
        }
      }
      assert pieces[..|pieces|] == pieces;
    }
    result := Some(cookies);
  }

  lemma {:induction false} FailureStays(jar: Jar, cookies: seq<string>, n: nat)
    requires n <= |cookies| && Steps(jar, cookies[..n]).None?
    ensures Steps(jar, cookies).None?
    decreases |cookies|
  {
    if n < |cookies| {
      assert cookies[..|cookies| - 1][..n] == cookies[..n];
      FailureStays(jar, cookies[..|cookies| - 1], n);
    } else {
      assert cookies[..n] == cookies;
    }
  }

  // ------------------------------------------------------------------ one piece of the header

  /** Without an equals sign a piece is ignored. */
  lemma NoEqualsIgnored(jar: Jar, cookie: string)
    requires '=' !in cookie
    ensures Step(jar, cookie) == Some(jar)
  {
    SplitWhole(cookie, '=');
  }

  /**
   * With one, the name is what is before the first, the value what is between it and the next, if there is one; what
   * is after that is dropped. An empty name or value is ignored, and a value that does not decode fails everything.
   */
  lemma PieceExactly(jar: Jar, left: string, value: string, more: string)
    requires '=' !in left && '=' !in value && (more == "" || more[0] == '=')
    ensures Step(jar, left + "=" + value + more)
         == if Trim(left) == "" || Trim(value) == "" then Some(jar)
            else if Decode(Trim(value)).None? then None
            else if Trim(left) == "__proto__" then Some(jar)
            else Some(jar[Trim(left) := Decode(Trim(value)).value])
  {
    hide Trim, Decode;
    var cookie := left + "=" + value + more;
    assert cookie == left + ['='] + (value + more);
    SplitFirst(left, value + more, '=');
    if more == "" {
      assert value + more == value;
      SplitWhole(value, '=');
    } else {
      assert value + more == value + ['='] + more[1..];
      SplitFirst(value, more[1..], '=');
    }
  }

  /** The middleware throws, and the request fails, exactly when the value of some piece does not decode. */
  lemma {:induction false} FailsExactly(jar: Jar, cookies: seq<string>)
    ensures Steps(jar, cookies).None? <==> exists i :: 0 <= i < |cookies| && Step(map[], cookies[i]).None?
  {
    hide Step;
    if cookies != [] {
      var n := |cookies| - 1;
      FailsExactly(jar, cookies[..n]);
      if i :| 0 <= i < n && Step(map[], cookies[i]).None? {
        assert Step(map[], cookies[..n][i]).None?;
      }
      if Steps(jar, cookies[..n]).Some? {
        SameFailure(Steps(jar, cookies[..n]).value, map[], cookies[n]);
      }
      if i :| 0 <= i < |cookies| && Step(map[], cookies[i]).None? && i < n {
        assert Step(map[], cookies[..n][i]).None?;
      }
    }
  }

  lemma SameFailure(jar: Jar, other: Jar, cookie: string)
    ensures Step(jar, cookie).None? <==> Step(other, cookie).None?
  {
    hide Trim, Decode;
  }

  // ------------------------------------------------------------------ printed cookies

  datatype Pair = Pair(name: string, value: string)

  function PrintPair(p: Pair): string
  {
    p.name + "=" + Encode(p.value)
  }

  function PrintPairs(pairs: seq<Pair>): seq<string>
  {
    seq(|pairs|, i requires 0 <= i < |pairs| => PrintPair(pairs[i]))
  }

  function Print(pairs: seq<Pair>): string
  {
    Join(PrintPairs(pairs), "; ")
  }

  /** The map in which the last binding of a name wins. */
  function LastBindings(pairs: seq<Pair>): Jar
  {
    if pairs == [] then map[]
    else
      var last := pairs[|pairs| - 1];
      LastBindings(pairs[..|pairs| - 1])[last.name := last.value]
  }

  /** `LastBindings` is what its name says: each name has the value of its last pair. */
  lemma {:induction false} LastBindingWins(pairs: seq<Pair>, name: string)
    ensures name in LastBindings(pairs) <==> exists i :: 0 <= i < |pairs| && pairs[i].name == name
    ensures forall i :: 0 <= i < |pairs| && pairs[i].name == name
                        && (forall j :: i < j < |pairs| ==> pairs[j].name != name)
                        ==> name in LastBindings(pairs) && LastBindings(pairs)[name] == pairs[i].value
  {
    if pairs != [] {
      var n := |pairs| - 1;
      LastBindingWins(pairs[..n], name);
      if pairs[n].name == name {
        assert exists i :: 0 <= i < |pairs| && pairs[i].name == name;
      } else {
        assert name in LastBindings(pairs) <==> name in LastBindings(pairs[..n]);
        forall i | 0 <= i < |pairs| && pairs[i].name == name
                   && (forall j :: i < j < |pairs| ==> pairs[j].name != name)
          ensures name in LastBindings(pairs) && LastBindings(pairs)[name] == pairs[i].value
        {
          assert pairs[..n][i].name == name && forall j :: i < j < n ==> pairs[..n][j].name != name;
        }
        if i :| 0 <= i < |pairs| && pairs[i].name == name {
          assert pairs[..n][i].name == name;
        }
      }
    }
  }

  /** The pairs the parser keeps, with their names trimmed. */
  function Kept(pairs: seq<Pair>): seq<Pair>
  {
    if pairs == [] then []
    else
      var last := pairs[|pairs| - 1];
      var before := Kept(pairs[..|pairs| - 1]);
      if Trim(last.name) == "" || Trim(last.name) == "__proto__" || last.value == "" then before
      else before + [Pair(Trim(last.name), last.value)]
  }

  predicate SplittableNames(pairs: seq<Pair>)
  {
    forall i :: 0 <= i < |pairs| ==> ';' !in pairs[i].name && '=' !in pairs[i].name
  }

  lemma EncodedHasNoDelimiter(s: string)
    ensures ';' !in Encode(s) && '=' !in Encode(s)
    ensures forall i :: 0 <= i < |Encode(s)| ==> !IsSpace(Encode(s)[i])
    ensures Encode(s) == "" <==> s == ""
  {
    EncodedChars(s);
  }

  lemma SolidTextIsTrimmed(s: string)
    requires forall i :: 0 <= i < |s| ==> !IsSpace(s[i])
    ensures Trim(s) == s
  {
  }

  lemma BlankIsTrimmed(blank: string, name: string)
    requires blank == "" || blank == " "
    ensures Trim(blank + name) == Trim(name)
  {
    assert (blank + name)[|blank|..] == name;
  }

  /** The piece of a printed pair, with the blank that follows the previous `;`. */
  lemma PieceStep(jar: Jar, p: Pair, blank: string)
    requires '=' !in p.name && (blank == "" || blank == " ")
    ensures Step(jar, blank + PrintPair(p))
         == Some(if Trim(p.name) == "" || p.value == "" then jar else Assign(jar, Trim(p.name), p.value))
  {
    hide Trim, Encode, Decode;
    var val := Encode(p.value);
    EncodedHasNoDelimiter(p.value);
    SolidTextIsTrimmed(val);
    DecodeEncode(p.value);
    assert blank + PrintPair(p) == (blank + p.name) + ['='] + val;
    SplitFirst(blank + p.name, val, '=');
    SplitWhole(val, '=');
    BlankIsTrimmed(blank, p.name);
  }

  /** The pieces a printed list splits into: every pair, all but the first after a blank. */
  function Pieces(pairs: seq<Pair>): seq<string>
  {
    seq(|pairs|, i requires 0 <= i < |pairs| => (if i == 0 then "" else " ") + PrintPair(pairs[i]))
  }

  function BlankPieces(pairs: seq<Pair>): seq<string>
  {
    seq(|pairs|, i requires 0 <= i < |pairs| => " " + PrintPair(pairs[i]))
  }

  lemma PrintFirst(pairs: seq<Pair>)
    requires |pairs| >= 2
    ensures Print(pairs) == PrintPair(pairs[0]) + ([';'] + (" " + Print(pairs[1..])))
  {
    assert PrintPairs(pairs) == [PrintPair(pairs[0])] + PrintPairs(pairs[1..]);
    assert "; " == [';'] + " ";
  }

  lemma PairHasNoSemicolon(p: Pair)
    requires ';' !in p.name
    ensures ';' !in PrintPair(p)
  {
    EncodedHasNoDelimiter(p.value);
  }

  lemma {:induction false} PrintSplits(pairs: seq<Pair>, blank: string)
    requires pairs != [] && SplittableNames(pairs) && ';' !in blank
    ensures Split(blank + Print(pairs), ';') == [blank + PrintPair(pairs[0])] + BlankPieces(pairs[1..])
  {
    hide PrintPair;
    var first := blank + PrintPair(pairs[0]);
    PairHasNoSemicolon(pairs[0]);
    if |pairs| == 1 {
      assert PrintPairs(pairs) == [PrintPair(pairs[0])];
      SplitWhole(first, ';');
    } else {
      hide Print;
      var tail := " " + Print(pairs[1..]);
      PrintFirst(pairs);
      assert blank + Print(pairs) == first + [';'] + tail;
      SplitFirst(first, tail, ';');
      PrintSplits(pairs[1..], " ");
      assert BlankPieces(pairs[1..]) == [" " + PrintPair(pairs[1..][0])] + BlankPieces(pairs[1..][1..]);
    }
  }

  lemma {:induction false} PiecesParse(pairs: seq<Pair>)
    requires SplittableNames(pairs)
    ensures Steps(map[], Pieces(pairs)) == Some(LastBindings(Kept(pairs)))
  {
    if pairs != [] {
      var n := |pairs| - 1;
      PiecesParse(pairs[..n]);
      assert Pieces(pairs)[..n] == Pieces(pairs[..n]);
      PieceStep(LastBindings(Kept(pairs[..n])), pairs[n], if n == 0 then "" else " ");
    }
  }

  /**
   * Parsing a printed cookie list gives the last binding of every name, over exactly the pairs the parser
   * keeps: those with a non-empty value whose trimmed name is neither empty nor `__proto__`.
   */
  lemma ParsePrint(pairs: seq<Pair>)
    requires SplittableNames(pairs)
    ensures ParsedHeader(Some(Print(pairs))) == Some(LastBindings(Kept(pairs)))
  {
    if pairs != [] {
      PrintSplits(pairs, "");
      assert "" + Print(pairs) == Print(pairs);
      assert ["" + PrintPair(pairs[0])] + BlankPieces(pairs[1..]) == Pieces(pairs);
      PiecesParse(pairs);
      PrintIsNotEmpty(pairs);
    }
  }

  lemma PrintIsNotEmpty(pairs: seq<Pair>)
    requires pairs != []
    ensures Print(pairs) != ""
  {
    assert PrintPairs(pairs)[0] == PrintPair(pairs[0]);
    assert |PrintPair(pairs[0])| >= 1;
  }

  predicate WellFormedPair(p: Pair)
  {
    p.name != "" && Trim(p.name) == p.name && p.value != ""
  }

  lemma {:induction false} KeptAll(pairs: seq<Pair>)
    requires forall i :: 0 <= i < |pairs| ==> WellFormedPair(pairs[i]) && pairs[i].name != "__proto__"
    ensures Kept(pairs) == pairs
  {
    if pairs != [] {
      var n := |pairs| - 1;
      KeptAll(pairs[..n]);
      assert pairs[..n] + [pairs[n]] == pairs;
    }
  }

  lemma {:induction false} KeptHasNoProto(pairs: seq<Pair>)
    ensures forall i :: 0 <= i < |Kept(pairs)| ==> Kept(pairs)[i].name != "__proto__"
  {
    if pairs != [] {
      KeptHasNoProto(pairs[..|pairs| - 1]);
    }
  }

  /**
   * For trimmed, non-empty names and non-empty values, the round trip holds exactly when no cookie is
   * called `__proto__`.
   */
  lemma ParsePrintExactly(pairs: seq<Pair>)
    requires SplittableNames(pairs)
    requires forall i :: 0 <= i < |pairs| ==> WellFormedPair(pairs[i])
    ensures ParsedHeader(Some(Print(pairs))) == Some(LastBindings(pairs))
            <==> forall i :: 0 <= i < |pairs| ==> pairs[i].name != "__proto__"
  {
    ParsePrint(pairs);
    if forall i :: 0 <= i < |pairs| ==> pairs[i].name != "__proto__" {
      KeptAll(pairs);
    } else {
      KeptHasNoProto(pairs);
      LastBindingWins(pairs, "__proto__");
      LastBindingWins(Kept(pairs), "__proto__");
    }
  }
}
