/**
 * How the location and company forms turn a free-text address (and an optional second
 * line) into the stored building number and street, by splitting at the first space.
 *
 * The location form and the first company form trim the address before taking the
 * substring but look for the space in the address as typed; the company creation page
 * takes the substrings of the address as typed and trims each of them.
 */
module AddressMapping {
  import opened Wrappers
  import opened JsString

  /** `address.trim().substring(0, address.indexOf(" ")).trim()`. */
  function BuildingNumber(address: string): (r: string)
    ensures Trimmed(r)
    ensures ' ' !in address ==> r == ""
  {
    Trim(Substring(Trim(address), 0, IndexOf(address, ' ')))
  }

  /** `address.trim().substring(address.indexOf(" ") + 1, address.length)`. */
  function StreetPart(address: string): (r: string)
    ensures ' ' !in address ==> r == Trim(address)
  {
    var t := Trim(address);
    Substring(t, IndexOf(address, ' ') + 1, |address|)
  }

  /** `.concat(!!secondary.trim() ? ", " : "", secondary.trim())`. */
  function WithSecondLine(street: string, secondary: string): (r: string)
    ensures Trim(secondary) == "" ==> r == street
    ensures Trim(secondary) != "" ==> r == street + ", " + Trim(secondary)
  {
    var second := Trim(secondary);
    street + (if Truthy(second) then ", " else "") + second
  }

  /** The stored street: the rest of the address, then the second line when it is not blank. */
  function Street(address: string, secondary: string): (r: string)
    ensures ' ' !in address ==> r == WithSecondLine(Trim(address), secondary)
    ensures Trim(secondary) == "" ==> r == StreetPart(address)
  {
    WithSecondLine(StreetPart(address), secondary)
  }

  /** `address.substring(0, address.indexOf(" ")).trim()`. */
  function UntrimmedBuildingNumber(address: string): (r: string)
    ensures Trimmed(r)
    ensures ' ' !in address ==> r == ""
    ensures ' ' in address ==> r == Trim(address[..IndexOf(address, ' ')])
  {
    var i := IndexOf(address, ' ');
    assert ' ' in address ==> Substring(address, 0, i) == address[..i] by {
      if ' ' in address {
        SubstringInRange(address, 0, i);
      }
    }
    Trim(Substring(address, 0, i))
  }

  /** `address.substring(address.indexOf(" ") + 1, address.length).trim()`. */
  function UntrimmedStreet(address: string): (r: string)
    ensures Trimmed(r)
    ensures ' ' !in address ==> r == Trim(address)
    ensures ' ' in address ==> r == Trim(address[IndexOf(address, ' ') + 1..])
  {
    var i := IndexOf(address, ' ');
    var rest := Substring(address, i + 1, |address|);
    assert rest == address[i + 1..] by {
      SubstringInRange(address, i + 1, |address|);
    }
    Trim(rest)
  }

  /**
   * On an address without surrounding white space, the building number is the trimmed
   * text before the first space and the street part is all the text after it.
   */
  lemma SplitTrimmedAddress(address: string)
    requires Trimmed(address) && ' ' in address
    ensures BuildingNumber(address) == Trim(address[..IndexOf(address, ' ')])
    ensures StreetPart(address) == address[IndexOf(address, ' ') + 1..]
  {
    var i := IndexOf(address, ' ');
    TrimFixesExactlyTrimmed(address);
    SubstringInRange(address, 0, i);
    SubstringInRange(address, i + 1, |address|);
  }

  /** `b + " " + s` splits back into `b` and `s` when `b` holds no space. */
  lemma SplitWordAndRest(b: string, s: string)
    requires |b| >= 1 && ' ' !in b && Trimmed(b) && |s| >= 1 && Trimmed(s)
    ensures BuildingNumber(b + " " + s) == b
    ensures StreetPart(b + " " + s) == s
  {
    var a := b + " " + s;
    IndexOfAfter(b, ' ', s);
    assert a[0] == b[0];
    assert a[|a| - 1] == s[|s| - 1];
    assert Trimmed(a);
    SplitTrimmedAddress(a);
    assert a[..|b|] == b && a[|b| + 1..] == s;
    TrimFixesExactlyTrimmed(b);
  }

  /**
   * The space is looked for in the address as typed, the substring taken of the trimmed
   * address: a leading space shifts the split by one character.
   */
  lemma LeadingSpaceShiftsTheSplit()
    ensures BuildingNumber(" 12 Main") == ""
    ensures StreetPart(" 12 Main") == "2 Main"
  {
    var a := " 12 Main";
    var t := "12 Main";
    LeadingSpaceFacts();
    assert Substring(t, 0, 0) == "";
    assert Substring(t, 1, |a|) == t[1..|t|];
    assert t[1..|t|] == "2 Main";
  }

  /** The building number with the space looked for in the trimmed address, where it is cut. */
  function CorrectedBuildingNumber(address: string): (r: string)
    ensures Trimmed(r)
    ensures r == BuildingNumber(Trim(address))
  {
    var t := Trim(address);
    TrimIdempotent(address);
    Trim(Substring(t, 0, IndexOf(t, ' ')))
  }

  /** The street part with the space looked for in the trimmed address. */
  function CorrectedStreetPart(address: string): (r: string)
    ensures r == StreetPart(Trim(address))
  {
    var t := Trim(address);
    TrimIdempotent(address);
    Substring(t, IndexOf(t, ' ') + 1, |t|)
  }

  /**
   * With the space looked for in the trimmed address, white space around `b + " " + s`
   * no longer moves the cut: the pieces are `b` and `s`.
   */
  lemma CorrectedSplitIgnoresSurroundingSpace(address: string, b: string, s: string)
    requires Trim(address) == b + " " + s
    requires |b| >= 1 && ' ' !in b && Trimmed(b) && |s| >= 1 && Trimmed(s)
    ensures CorrectedBuildingNumber(address) == b
    ensures CorrectedStreetPart(address) == s
  {
    SplitWordAndRest(b, s);
  }

  /** `" 12 Main"` is cut into `"12"` and `"Main"` once the space is looked for after trimming. */
  lemma CorrectedSplitOfLeadingSpace()
    ensures CorrectedBuildingNumber(" 12 Main") == "12"
    ensures CorrectedStreetPart(" 12 Main") == "Main"
  {
    LeadingSpaceFacts();
    assert "12 Main" == "12" + " " + "Main";
    assert Trimmed("12") && Trimmed("Main");
    CorrectedSplitIgnoresSurroundingSpace(" 12 Main", "12", "Main");
  }

  lemma LeadingSpaceKeptByUntrimmedSplit()
    ensures UntrimmedBuildingNumber(" 12 Main") == ""
    ensures UntrimmedStreet(" 12 Main") == "12 Main"
  {
    var a := " 12 Main";
    var t := "12 Main";
    LeadingSpaceFacts();
    assert Substring(a, 0, 0) == "";
    SubstringInRange(a, 1, |a|);
    assert a[1..|a|] == t;
  }

  lemma LeadingSpaceFacts()
    ensures IndexOf(" 12 Main", ' ') == 0
    ensures Trim(" 12 Main") == "12 Main" && Trim("12 Main") == "12 Main"
  {
    var a := " 12 Main";
    var t := "12 Main";
    assert a[0] == ' ';
    TrimmedWord();
    assert a == [' '] + t;
    TrimSkipsLeadingWhitespace(' ', t);
  }

  lemma TrimmedWord()
    ensures Trim("12 Main") == "12 Main"
  {
    var t := "12 Main";
    assert !IsWhitespace(t[0]) && !IsWhitespace(t[|t| - 1]);
    assert Trimmed(t);
    TrimFixesExactlyTrimmed(t);
  }

  /**
   * On an address without surrounding white space both ways of splitting give the same
   * building number, and the same street once the street part is trimmed.
   */
  lemma SplitVariantsAgree(address: string)
    requires Trimmed(address)
    ensures UntrimmedBuildingNumber(address) == BuildingNumber(address)
    ensures UntrimmedStreet(address) == Trim(StreetPart(address))
  {
    TrimFixesExactlyTrimmed(address);
  }

  // ---------------------------------------------------------------- rebuilding the address

  /**
   * `street?.split(",").shift()?.trim() || street || ""`: the text before the first comma,
   * trimmed, or the whole street when that is blank.
   */
  function FirstStreetSegment(street: Option<string>): (r: string)
    ensures street.None? ==> r == ""
    ensures street.Some? ==>
      var st := street.value;
      var head := if ',' in st then st[..IndexOf(st, ',')] else st;
      r == if Trim(head) != "" then Trim(head) else st
  {
    match street
    case None => ""
    case Some(st) =>
      SplitHead(st, ',');
      Or(Some(Trim(Split(st, ',')[0])), Or(Some(st), ""))
  }

  /** `${buildingNumber || ""} ${…}`: the first address line the location forms start from. */
  function PrimaryAddress(buildingNumber: Option<string>, street: Option<string>): (r: string)
    ensures |r| == |Or(buildingNumber, "")| + 1 + |FirstStreetSegment(street)|
    ensures r[..|Or(buildingNumber, "")|] == Or(buildingNumber, "")
    ensures r[|Or(buildingNumber, "")|] == ' '
    ensures r[|Or(buildingNumber, "")| + 1..] == FirstStreetSegment(street)
  {
    Or(buildingNumber, "") + " " + FirstStreetSegment(street)
  }

  /** `street?.split(",").slice(1).join(",").trim() || ""`: the text after the first comma, trimmed. */
  function SecondaryAddress(street: Option<string>): (r: string)
    ensures Trimmed(r)
    ensures street.None? || ',' !in street.value ==> r == ""
    ensures street.Some? && ',' in street.value ==> r == Trim(street.value[IndexOf(street.value, ',') + 1..])
  {
    match street
    case None => ""
    case Some(st) =>
      var rest := Join(Split(st, ',')[1..], [',']);
      SplitTailJoin(st, ',');
      assert ',' !in st ==> rest == "";
      assert ',' in st ==> rest == st[IndexOf(st, ',') + 1..];
      var r := Trim(rest);
      assert Or(Some(r), "") == r;
      Or(Some(r), "")
  }

  /**
   * Splitting a trimmed address `b + " " + s` (`b` without spaces, `s` without commas) with a
   * second line, then rebuilding from the stored pair, gives back the address and the
   * trimmed second line.
   */
  lemma RebuildsSplitAddress(b: string, s: string, secondary: string)
    requires |b| >= 1 && ' ' !in b && Trimmed(b)
    requires |s| >= 1 && Trimmed(s) && ',' !in s
    ensures PrimaryAddress(Some(BuildingNumber(b + " " + s)), Some(Street(b + " " + s, secondary))) == b + " " + s
    ensures SecondaryAddress(Some(Street(b + " " + s, secondary))) == Trim(secondary)
  {
    SplitWordAndRest(b, s);
    StreetSegments(s, secondary);
  }

  /** A comma-free street with a second line comes apart at the comma that joined them. */
  lemma StreetSegments(s: string, secondary: string)
    requires |s| >= 1 && Trimmed(s) && ',' !in s
    ensures FirstStreetSegment(Some(WithSecondLine(s, secondary))) == s
    ensures SecondaryAddress(Some(WithSecondLine(s, secondary))) == Trim(secondary)
  {
    TrimFixesExactlyTrimmed(s);
    var second := Trim(secondary);
    if second != "" {
      JoinedStreetFirstSegment(s, second);
      JoinedStreetSecondSegment(s, second);
      TrimIdempotent(secondary);
    } else {
      assert WithSecondLine(s, secondary) == s;
    }
  }

  lemma JoinedStreetFirstSegment(s: string, second: string)
    requires |s| >= 1 && Trimmed(s) && ',' !in s
    ensures FirstStreetSegment(Some(s + ", " + second)) == s
  {
    var street := s + ", " + second;
    var rest := " " + second;
    assert street == s + [','] + rest;
    IndexOfAfter(s, ',', rest);
    assert street[|s|] == ',' && street[..|s|] == s;
    TrimFixesExactlyTrimmed(s);
  }

  lemma JoinedStreetSecondSegment(s: string, second: string)
    requires ',' !in s && Trimmed(second)
    ensures SecondaryAddress(Some(s + ", " + second)) == second
  {
    var street := s + ", " + second;
    assert street == s + [','] + (" " + second);
    IndexOfAfter(s, ',', " " + second);
    assert street[|s| + 1..] == [' '] + second;
    TrimSkipsLeadingWhitespace(' ', second);
    TrimFixesExactlyTrimmed(second);
  }
}
