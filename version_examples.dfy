/** The examples that the documentation of `getVersionNumbers` and
    `getCompoundVersionNumber` gives, worked through the model. */
module VersionExamples {
  import opened Wrappers
  import opened JavaStrings
  import opened JavaInt
  import opened StringUtilities

  lemma OneDigit(c: char)
    requires IsDigit(c)
    ensures ComponentValue([c]) == Some(c as int - '0' as int)
  {
    assert [c][..0] == [];
    NumeralComponent([c]);
  }

  lemma TwoDigits(c: char, d: char)
    requires IsDigit(c) && IsDigit(d)
    ensures ComponentValue([c, d]) == Some(10 * (c as int - '0' as int) + (d as int - '0' as int))
  {
    assert [c, d][..1] == [c];
    assert [c][..0] == [];
    assert DecimalValue([c]) == c as int - '0' as int;
    NumeralComponent([c, d]);
  }

  lemma DigitThenOther(c: char, x: char)
    requires IsDigit(c) && !IsDigit(x)
    ensures ComponentValue([c, x]) == Some(c as int - '0' as int)
  {
    assert [c, x][..1] == [c];
    assert [c][..0] == [];
    assert LeadingDigits([c, x]) == 1;
    assert DecimalValue([c]) == c as int - '0' as int;
  }

  lemma TokensOf_1_17_6()
    ensures VersionTokens("1.17.6") == ["1", "17", "6"]
  {
    assert "1.17.6" == Joined(["1", "17", "6"], "..");
    TokensOfJoined(["1", "17", "6"], "..", VERSION_DELIMS);
  }

  lemma ScanOf_1_17_6()
    ensures Scan(["1", "17", "6"], 3, 0, []) == Some([1, 17, 6])
  {
    var t := ["1", "17", "6"];
    OneDigit('1'); TwoDigits('1', '7'); OneDigit('6');
    assert t[0] == ['1'] && t[1] == ['1', '7'] && t[2] == ['6'];
    var vs: seq<Int> := [1, 17, 6];
    ScanReads(t, 3, 0, [], vs);
    assert [] + vs == vs;
  }

  /** `getVersionNumbers("1.17.6")` returns [1, 17, 6]. */
  lemma VersionNumbers_1_17_6()
    ensures VersionNumbers("1.17.6") == Some([1, 17, 6])
  {
    TokensOf_1_17_6();
    ScanOf_1_17_6();
  }

  lemma Spelled_1_38_1_vweb()
    ensures "1.38.1-vweb0606-02" == Joined(["1", "38", "1", "vweb0606", "02"], "..--")
  {
  }

  lemma TokensOf_1_38_1_vweb()
    ensures VersionTokens("1.38.1-vweb0606-02") == ["1", "38", "1", "vweb0606", "02"]
  {
    Spelled_1_38_1_vweb();
    TokensOfJoined(["1", "38", "1", "vweb0606", "02"], "..--", VERSION_DELIMS);
  }

  lemma ScanOf_1_38_1_vweb()
    ensures Scan(["1", "38", "1", "vweb0606", "02"], 5, 0, []) == Some([1, 38, 1])
  {
    var t := ["1", "38", "1", "vweb0606", "02"];
    OneDigit('1'); TwoDigits('3', '8');
    assert t[0] == ['1'] && t[1] == ['3', '8'] && t[2] == ['1'] && t[3][0] == 'v';
    var vs: seq<Int> := [1, 38, 1];
    ScanReads(t, 5, 0, [], vs);
    assert [] + vs == vs;
  }

  /** `getVersionNumbers("1.38.1-vweb0606-02")` returns [1, 38, 1]: `-` separates components
      too, and the reading stops at the first token without a leading digit. */
  lemma VersionNumbers_1_38_1_vweb()
    ensures VersionNumbers("1.38.1-vweb0606-02") == Some([1, 38, 1])
  {
    TokensOf_1_38_1_vweb();
    ScanOf_1_38_1_vweb();
  }

  lemma Spelled_1_16_5_2_3()
    ensures "1.16.5.2.3" == Joined(["1", "16", "5", "2", "3"], "....")
  {
  }

  lemma TokensOf_1_16_5_2_3()
    ensures VersionTokens("1.16.5.2.3") == ["1", "16", "5", "2", "3"]
  {
    Spelled_1_16_5_2_3();
    TokensOfJoined(["1", "16", "5", "2", "3"], "....", VERSION_DELIMS);
  }

  lemma ScanOf_1_16_5_2_3()
    ensures Scan(["1", "16", "5", "2", "3"], 5, 0, []) == Some([1, 16, 5, 2, 3])
  {
    var t := ["1", "16", "5", "2", "3"];
    OneDigit('1'); TwoDigits('1', '6'); OneDigit('5'); OneDigit('2'); OneDigit('3');
    assert t[0] == ['1'] && t[1] == ['1', '6'] && t[2] == ['5'] && t[3] == ['2'] && t[4] == ['3'];
    var vs: seq<Int> := [1, 16, 5, 2, 3];
    ScanReads(t, 5, 0, [], vs);
    assert [] + vs == vs;
  }

  /** `getVersionNumbers("1.16.5.2.3")` returns [1, 16, 5, 2, 3]: there is no limit on the
      number of components. */
  lemma VersionNumbers_1_16_5_2_3()
    ensures VersionNumbers("1.16.5.2.3") == Some([1, 16, 5, 2, 3])
  {
    TokensOf_1_16_5_2_3();
    ScanOf_1_16_5_2_3();
  }

  lemma Spelled_1_16_x_5_2_3()
    ensures "1.16.x.5.2.3" == Joined(["1", "16", "x", "5", "2", "3"], ".....")
  {
  }

  lemma TokensOf_1_16_x_5_2_3()
    ensures VersionTokens("1.16.x.5.2.3") == ["1", "16", "x", "5", "2", "3"]
  {
    Spelled_1_16_x_5_2_3();
    TokensOfJoined(["1", "16", "x", "5", "2", "3"], ".....", VERSION_DELIMS);
  }

  lemma ScanOf_1_16_x_5_2_3()
    ensures Scan(["1", "16", "x", "5", "2", "3"], 6, 0, []) == Some([1, 16])
  {
    var t := ["1", "16", "x", "5", "2", "3"];
    OneDigit('1'); TwoDigits('1', '6');
    assert t[0] == ['1'] && t[1] == ['1', '6'] && t[2][0] == 'x';
    var vs: seq<Int> := [1, 16];
    ScanReads(t, 6, 0, [], vs);
    assert [] + vs == vs;
  }

  /** `getVersionNumbers("1.16.x.5.2.3")` returns [1, 16]: numeric components after a
      non-numeric one are ignored. */
  lemma VersionNumbers_1_16_x_5_2_3()
    ensures VersionNumbers("1.16.x.5.2.3") == Some([1, 16])
  {
    TokensOf_1_16_x_5_2_3();
    ScanOf_1_16_x_5_2_3();
  }

  lemma Spelled_1_43_2b_5()
    ensures "1.43.2b.5" == Joined(["1", "43", "2b", "5"], "...")
  {
  }

  lemma TokensOf_1_43_2b_5()
    ensures VersionTokens("1.43.2b.5") == ["1", "43", "2b", "5"]
  {
    Spelled_1_43_2b_5();
    TokensOfJoined(["1", "43", "2b", "5"], "...", VERSION_DELIMS);
  }

  lemma ScanOf_1_43_2b_5()
    ensures Scan(["1", "43", "2b", "5"], 4, 0, []) == Some([1, 43, 2, 5])
  {
    var t := ["1", "43", "2b", "5"];
    OneDigit('1'); TwoDigits('4', '3'); DigitThenOther('2', 'b'); OneDigit('5');
    assert t[0] == ['1'] && t[1] == ['4', '3'] && t[2] == ['2', 'b'] && t[3] == ['5'];
    var vs: seq<Int> := [1, 43, 2, 5];
    ScanReads(t, 4, 0, [], vs);
    assert [] + vs == vs;
  }

  /** `getVersionNumbers("1.43.2b.5")` is [1, 43, 2, 5]: a token with a leading digit run
      contributes that run, and the reading goes on. */
  lemma VersionNumbers_1_43_2b_5()
    ensures VersionNumbers("1.43.2b.5") == Some([1, 43, 2, 5])
  {
    TokensOf_1_43_2b_5();
    ScanOf_1_43_2b_5();
  }

  /** `getVersionNumbers("x.1.2.3")` returns []. */
  lemma VersionNumbers_x_1_2_3()
    ensures VersionNumbers("x.1.2.3") == Some([])
  {
    assert "x.1.2.3" == Joined(["x", "1", "2", "3"], "...");
    TokensOfJoined(["x", "1", "2", "3"], "...", VERSION_DELIMS);
    var t := ["x", "1", "2", "3"];
    assert t[0][0] == 'x';
    ScanReads(t, 4, 0, [], []);
  }

  /** `getVersionNumbers("")` and `getVersionNumbers("foo")` return []. */
  lemma VersionNumbers_empty_and_foo()
    ensures VersionNumbers("") == Some([])
    ensures VersionNumbers("foo") == Some([])
  {
    TokensOfToken("foo", VERSION_DELIMS);
    ScanReads(["foo"], 1, 0, [], []);
  }

  lemma ScanOf_1_2_3_4()
    ensures Scan(["1", "2", "3", "4"], 3, 0, []) == Some([1, 2, 3])
  {
    var t := ["1", "2", "3", "4"];
    OneDigit('1'); OneDigit('2'); OneDigit('3');
    assert t[0] == ['1'] && t[1] == ['2'] && t[2] == ['3'];
    var vs: seq<Int> := [1, 2, 3];
    ScanReads(t, 3, 0, [], vs);
    assert [] + vs == vs;
  }

  lemma ScanOf_1_2_3()
    ensures Scan(["1", "2", "3"], 3, 0, []) == Some([1, 2, 3])
  {
    var t := ["1", "2", "3"];
    OneDigit('1'); OneDigit('2'); OneDigit('3');
    assert t[0] == ['1'] && t[1] == ['2'] && t[2] == ['3'];
    var vs: seq<Int> := [1, 2, 3];
    ScanReads(t, 3, 0, [], vs);
    assert [] + vs == vs;
  }

  /** The documented equivalence: `getCompoundVersionNumber("1.2.3.4", 3)` is
      `getCompoundVersionNumber("1.2.3", 3)`. */
  lemma CompoundIgnoresExtraComponents()
    ensures CompoundVersionNumber("1.2.3.4", 3) == CompoundVersionNumber("1.2.3", 3)
  {
    assert "1.2.3.4" == Joined(["1", "2", "3", "4"], "...");
    TokensOfJoined(["1", "2", "3", "4"], "...", VERSION_DELIMS);
    assert "1.2.3" == Joined(["1", "2", "3"], "..");
    TokensOfJoined(["1", "2", "3"], "..", VERSION_DELIMS);
    ScanOf_1_2_3_4();
    ScanOf_1_2_3();
  }

  lemma ScanOf_1_66_2()
    ensures Scan(["1", "66", "2"], 4, 0, []) == Some([1, 66, 2])
  {
    var t := ["1", "66", "2"];
    OneDigit('1'); TwoDigits('6', '6'); OneDigit('2');
    assert t[0] == ['1'] && t[1] == ['6', '6'] && t[2] == ['2'];
    var vs: seq<Int> := [1, 66, 2];
    ScanReads(t, 4, 0, [], vs);
    assert [] + vs == vs;
  }

  lemma TokensOf_1_66_2()
    ensures VersionTokens("1.66.2") == ["1", "66", "2"]
  {
    assert "1.66.2" == Joined(["1", "66", "2"], "..");
    TokensOfJoined(["1", "66", "2"], "..", VERSION_DELIMS);
  }

  lemma Pack_1_66_2()
    ensures Pack([1, 66, 2], 4) == 0x0142_0200
  {
    var cs: seq<Int> := [1, 66, 2];
    PackIsBase256(cs);
    assert Pad4(cs) == [1, 66, 2, 0];
  }

  /** `getCompoundVersionNumber("1.66.2")` is 0x01420200. */
  lemma Compound_1_66_2()
    ensures CompoundVersion("1.66.2") == Some(0x0142_0200)
  {
    TokensOf_1_66_2();
    ScanOf_1_66_2();
    Pack_1_66_2();
  }

  lemma ScanOf_1_64_10()
    ensures Scan(["1", "64", "10"], 4, 0, []) == Some([1, 64, 10])
  {
    var t := ["1", "64", "10"];
    OneDigit('1'); TwoDigits('6', '4'); TwoDigits('1', '0');
    assert t[0] == ['1'] && t[1] == ['6', '4'] && t[2] == ['1', '0'];
    var vs: seq<Int> := [1, 64, 10];
    ScanReads(t, 4, 0, [], vs);
    assert [] + vs == vs;
  }

  lemma TokensOf_1_64_10()
    ensures VersionTokens("1.64.10") == ["1", "64", "10"]
  {
    assert "1.64.10" == Joined(["1", "64", "10"], "..");
    TokensOfJoined(["1", "64", "10"], "..", VERSION_DELIMS);
  }

  lemma Pack_1_64_10()
    ensures Pack([1, 64, 10], 4) == 0x0140_0A00
  {
    var cs: seq<Int> := [1, 64, 10];
    PackIsBase256(cs);
    assert Pad4(cs) == [1, 64, 10, 0];
  }

  /** `getCompoundVersionNumber("1.64.10")` is 0x01400A00. */
  lemma Compound_1_64_10()
    ensures CompoundVersion("1.64.10") == Some(0x0140_0A00)
  {
    TokensOf_1_64_10();
    ScanOf_1_64_10();
    Pack_1_64_10();
  }

  lemma ScanOf_1_2()
    ensures Scan(["1", "2"], 4, 0, []) == Some([1, 2])
  {
    var t := ["1", "2"];
    OneDigit('1'); OneDigit('2');
    assert t[0] == ['1'] && t[1] == ['2'];
    var vs: seq<Int> := [1, 2];
    ScanReads(t, 4, 0, [], vs);
    assert [] + vs == vs;
  }

  lemma ScanOf_1_2_0_0()
    ensures Scan(["1", "2", "0", "0"], 4, 0, []) == Some([1, 2, 0, 0])
  {
    var t := ["1", "2", "0", "0"];
    OneDigit('1'); OneDigit('2'); OneDigit('0');
    assert t[0] == ['1'] && t[1] == ['2'] && t[2] == ['0'] && t[3] == ['0'];
    var vs: seq<Int> := [1, 2, 0, 0];
    ScanReads(t, 4, 0, [], vs);
    assert [] + vs == vs;
  }

  lemma TokensOf_1_2()
    ensures VersionTokens("1.2") == ["1", "2"]
  {
    assert "1.2" == Joined(["1", "2"], ".");
    TokensOfJoined(["1", "2"], ".", VERSION_DELIMS);
  }

  lemma TokensOf_1_2_0_0()
    ensures VersionTokens("1.2.0.0") == ["1", "2", "0", "0"]
  {
    assert "1.2.0.0" == Joined(["1", "2", "0", "0"], "...");
    TokensOfJoined(["1", "2", "0", "0"], "...", VERSION_DELIMS);
  }

  lemma Pack_1_2_and_1_2_0_0()
    ensures Pack([1, 2], 4) == Pack([1, 2, 0, 0], 4)
  {
    var cs: seq<Int> := [1, 2];
    PackIgnoresTrailingZero(cs);
    PackIgnoresTrailingZero(cs + [0]);
    assert cs + [0] + [0] == [1, 2, 0, 0];
  }

  /** With four components, "1.2" packs the same as "1.2.0.0". */
  lemma CompoundPadsWithZeros()
    ensures CompoundVersion("1.2") == CompoundVersion("1.2.0.0")
  {
    TokensOf_1_2();
    TokensOf_1_2_0_0();
    ScanOf_1_2();
    ScanOf_1_2_0_0();
    Pack_1_2_and_1_2_0_0();
  }
}
