/** The string helpers of package util (src/util/convert.go, src/util/strings.go). */
module Util {
  import opened Basics
  import opened Text

  // ---------------------------------------------------------------------------
  // Hexadecimal prefix stripping
  // ---------------------------------------------------------------------------

  /**
   * HexaNumberToInteger: accepted exactly when the input starts with "0x" or
   * "0X" (the source spells that test as Contains && Index == 0); the result
   * is the input with every "0x" deleted, then every "0X" deleted. The
   * controller's private hexaNumberToInteger is the same code.
   */
  function HexaNumberToInteger(s: string): (r: Result<string>)
    ensures r.Ok? <==> HasPrefix(s, "0x") || HasPrefix(s, "0X")
    ensures r.Err? ==> r.error == NotHexadecimal
    ensures r.Ok? ==> |r.value| <= |s| - 2
    ensures r.Ok? ==> r.value == Join(SplitOn(Join(SplitOn(s, "0x"), ""), "0X"), "")
  {
    RemoveAllSplitJoin(s, "0x");
    RemoveAllSplitJoin(RemoveAll(s, "0x"), "0X");
    IndexZeroIsPrefix(s, "0x");
    IndexZeroIsPrefix(s, "0X");
    if (Contains(s, "0x") && Index(s, "0x") == 0) || (Contains(s, "0X") && Index(s, "0X") == 0) then
      var once := RemoveAll(s, "0x");
      if HasPrefix(s, "0x") then
        RemoveAllPrefix(s, "0x");
        Ok(RemoveAll(once, "0X"))
      else
        UpperPrefixSurvives(s);
        RemoveAllPrefix(once, "0X");
        Ok(RemoveAll(once, "0X"))
    else
      Err(NotHexadecimal)
  }

  /** Deleting every "0x" keeps a leading "0X" in place. */
  lemma UpperPrefixSurvives(s: string)
    requires HasPrefix(s, "0X")
    ensures HasPrefix(RemoveAll(s, "0x"), "0X")
  {
    var i := Index(s, "0x");
    assert !OccursAt(s, "0x", 0) by {
      assert s[0..2] == "0X";
    }
    assert !OccursAt(s, "0x", 1) by {
      assert |s| >= 3 ==> s[1..3][0] == s[1] == 'X';
    }
    if i >= 0 {
      assert RemoveAll(s, "0x")[..2] == s[..i][..2];
    }
  }

  /** Interior prefixes are deleted too: "0x10x2" becomes "12". */
  lemma HexaInterior()
    ensures HexaNumberToInteger("0x10x2") == Ok("12")
  {
    assert HasPrefix("0x10x2", "0x");
    assert Index("0x10x2", "0x") == 0;
    assert "0x10x2"[2..] == "10x2";
    assert "10x2"[..2][0] == '1' && "10x2"[1..] == "0x2";
    assert Index("0x2", "0x") == 0;
    assert Index("10x2", "0x") == 1;
    assert "10x2"[3..] == "2";
    assert Index("2", "0x") == -1;
    assert RemoveAll("10x2", "0x") == "1" + RemoveAll("2", "0x");
    assert RemoveAll("0x10x2", "0x") == "12";
    assert "12"[..2][0] == '1' && "12"[1..] == "2";
    assert Index("12", "0X") == -1;
  }

  /** Digits keep their case: "0x1F" becomes "1F", and the controller's "0xFF" becomes "FF". */
  lemma HexaLowerPrefix()
    ensures HexaNumberToInteger("0x1F") == Ok("1F")
    ensures HexaNumberToInteger("0xFF") == Ok("FF")
  {
    assert HasPrefix("0x1F", "0x");
    assert Index("0x1F", "0x") == 0;
    assert "1F"[..2][0] == '1' && "1F"[1..] == "F";
    assert Index("1F", "0x") == -1;
    assert Index("1F", "0X") == -1;
    assert "0x1F"[2..] == "1F";
    assert RemoveAll("0x1F", "0x") == "1F";
    assert RemoveAll("1F", "0X") == "1F";
    assert HasPrefix("0xFF", "0x");
    assert Index("0xFF", "0x") == 0;
    assert "FF"[..2][0] == 'F' && "FF"[1..] == "F";
    assert Index("FF", "0x") == -1;
    assert Index("FF", "0X") == -1;
    assert "0xFF"[2..] == "FF";
    assert RemoveAll("0xFF", "0x") == "FF";
    assert RemoveAll("FF", "0X") == "FF";
  }

  /** The upper-case prefix is accepted as well: "0X1f" becomes "1f". */
  lemma HexaUpperPrefix()
    ensures HexaNumberToInteger("0X1f") == Ok("1f")
  {
    assert "0X1f"[..2][1] == 'X' && "0X1f"[1..] == "X1f";
    assert "X1f"[..2][0] == 'X' && "X1f"[1..] == "1f";
    assert "1f"[..2][0] == '1' && "1f"[1..] == "f";
    assert Index("0X1f", "0x") == -1;
    assert HasPrefix("0X1f", "0X");
    assert Index("0X1f", "0X") == 0;
    assert Index("1f", "0X") == -1;
    assert RemoveAll("0X1f", "0x") == "0X1f";
    assert "0X1f"[2..] == "1f";
    assert RemoveAll("0X1f", "0X") == "1f";
  }

  // ---------------------------------------------------------------------------
  // StringSlice, StringOrDefault, FormattedStringOrEmpty
  // ---------------------------------------------------------------------------

  /** The non-blank pieces, each trimmed, in the order of `parts`. */
  function Kept(parts: seq<string>): seq<string> {
    if parts == [] then []
    else
      var t := TrimSpace(parts[|parts| - 1]);
      Kept(parts[..|parts| - 1]) + (if t != "" then [t] else [])
  }

  /** StringSlice: split, trim every piece, drop the blank ones. */
  method StringSlice(input: string, sep: string) returns (result: seq<string>)
    ensures result == Kept(Split(input, sep))
  {
    var parts := Split(input, sep);
    result := [];
    var i := 0;
    while i < |parts|
      invariant 0 <= i <= |parts|
      invariant result == Kept(parts[..i])
    {
      var s := TrimSpace(parts[i]);
      if s != "" {
        result := result + [s];
      }
      assert parts[..i + 1][..i] == parts[..i];
      i := i + 1;
    }
    assert parts[..|parts|] == parts;
  }

  /** Every kept piece is trimmed, non-blank, and a trimmed copy of some piece. */
  lemma {:induction false} KeptPieces(parts: seq<string>)
    ensures forall k :: 0 <= k < |Kept(parts)| ==>
      Kept(parts)[k] != "" && TrimSpace(Kept(parts)[k]) == Kept(parts)[k]
      && exists j :: 0 <= j < |parts| && Kept(parts)[k] == TrimSpace(parts[j])
  {
    if parts != [] {
      var init := parts[..|parts| - 1];
      KeptPieces(init);
      var t := TrimSpace(parts[|parts| - 1]);
      TrimSpaceIdempotent(parts[|parts| - 1]);
      forall k | 0 <= k < |Kept(init)|
        ensures exists j :: 0 <= j < |parts| && Kept(init)[k] == TrimSpace(parts[j])
      {
        var j :| 0 <= j < |init| && Kept(init)[k] == TrimSpace(init[j]);
        assert init[j] == parts[j];
      }
    }
  }

  /** StringSlice's elements are trimmed and non-empty, and none holds the separator. */
  lemma StringSliceElements(input: string, sep: string)
    ensures forall k :: 0 <= k < |Kept(Split(input, sep))| ==>
      var e := Kept(Split(input, sep))[k];
      e != "" && TrimSpace(e) == e && (sep != [] ==> !Contains(e, sep))
  {
    var parts := Split(input, sep);
    KeptPieces(parts);
    if sep != [] {
      SplitPiecesFree(input, sep);
      forall k | 0 <= k < |Kept(parts)|
        ensures !Contains(Kept(parts)[k], sep)
      {
        var j :| 0 <= j < |parts| && Kept(parts)[k] == TrimSpace(parts[j]);
        TrimSpaceIsSlice(parts[j]);
        var a, b :| 0 <= a <= b <= |parts[j]| && TrimSpace(parts[j]) == parts[j][a..b];
        NotContainsSlice(parts[j], sep, a, b);
      }
    }
  }

  /** StringSlice of the empty string is empty, whatever the separator. */
  lemma StringSliceEmpty(sep: string)
    ensures Kept(Split("", sep)) == []
  {
    if sep != [] {
      assert Split("", sep) == [""];
      assert TrimSpace("") == "";
    }
  }

  /** StringOrDefault: the default exactly when the input is empty. */
  function StringOrDefault(input: string, default: string): (r: string)
    ensures input == "" ==> r == default
    ensures input != "" ==> r == input
    ensures r == "" <==> input == "" && default == ""
  {
    if input == "" then default else input
  }

  /**
   * FormattedStringOrEmpty: "" for empty input, otherwise the formatter's
   * output (`sprintf` stands for fmt.Sprintf, which is not modelled).
   */
  function FormattedStringOrEmpty(sprintf: (string, string) -> string, format: string, input: string): (r: string)
    ensures input == "" ==> r == ""
    ensures input != "" ==> r == sprintf(format, input)
  {
    if input == "" then "" else sprintf(format, input)
  }
}
