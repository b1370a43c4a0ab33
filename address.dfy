/** Assembly of a postal address from OpenStreetMap tags
    (`_format_osm_address`). */
module OsmAddress {

  const HouseNumber: string := "addr:housenumber"
  const Street: string := "addr:street"
  const City: string := "addr:city"
  const FullAddress: string := "addr:full"
  const NoAddress: string := "Address not available"

  /** The tags that make up an address, in the order they are joined. */
  const AddressKeys: seq<string> := [HouseNumber, Street, City]

  /** `sep.join(parts)`. */
  function Join(parts: seq<string>, sep: string): string {
    if |parts| == 0 then ""
    else if |parts| == 1 then parts[0]
    else parts[0] + sep + Join(parts[1..], sep)
  }

  /** The values of those of `keys` that `tags` has, in the order of `keys`. */
  function PresentValues(tags: map<string, string>, keys: seq<string>): (r: seq<string>)
    ensures |r| <= |keys|
  {
    if keys == [] then []
    else (if keys[0] in tags then [tags[keys[0]]] else []) + PresentValues(tags, keys[1..])
  }

  /** The tag value under `k` as a list of zero or one part. */
  function Part(tags: map<string, string>, k: string): seq<string> {
    if k in tags then [tags[k]] else []
  }

  /** The address parts, unfolded over the three keys. */
  lemma AddressParts(tags: map<string, string>)
    ensures PresentValues(tags, AddressKeys) == Part(tags, HouseNumber) + Part(tags, Street) + Part(tags, City)
  {
    var k := AddressKeys;
    assert k[1..] == [Street, City];
    assert [Street, City][1..] == [City];
    assert [City][1..] == [];
    assert PresentValues(tags, [City]) == Part(tags, City) + PresentValues(tags, []);
    assert PresentValues(tags, [Street, City]) == Part(tags, Street) + PresentValues(tags, [City]);
    assert PresentValues(tags, k) == Part(tags, HouseNumber) + PresentValues(tags, [Street, City]);
  }

  lemma JoinTwo(a: string, b: string, sep: string)
    ensures Join([a, b], sep) == a + sep + b
  {
  }

  lemma JoinThree(a: string, b: string, c: string, sep: string)
    ensures Join([a, b, c], sep) == a + sep + b + sep + c
  {
    assert [a, b, c][1..] == [b, c];
    JoinTwo(b, c, sep);
  }

  /** The address the service shows for a hospital with these tags. */
  function Address(tags: map<string, string>): string {
    var parts := PresentValues(tags, AddressKeys);
    if parts != [] then Join(parts, ", ")
    else if FullAddress in tags then tags[FullAddress]
    else NoAddress
  }

  /** `_format_osm_address`: appends each present part to a list, then joins
      the list or falls back to the full-address tag. */
  method FormatOsmAddress(tags: map<string, string>) returns (address: string)
    ensures address == Address(tags)
  {
    var parts: seq<string> := [];
    if HouseNumber in tags {
      parts := parts + [tags[HouseNumber]];
    }
    assert parts == Part(tags, HouseNumber);
    if Street in tags {
      parts := parts + [tags[Street]];
    }
    assert parts == Part(tags, HouseNumber) + Part(tags, Street);
    if City in tags {
      parts := parts + [tags[City]];
    }
    AddressParts(tags);
    assert parts == PresentValues(tags, AddressKeys);
    if parts != [] {
      address := Join(parts, ", ");
    } else if FullAddress in tags {
      address := tags[FullAddress];
    } else {
      address := NoAddress;
    }
  }

  /** The address, case by case on which of the three parts are present:
      present parts appear in the order house number, street, city, separated
      by ", "; with none present, the full-address tag or the literal. */
  lemma AddressCases(tags: map<string, string>)
    ensures var h, s, c := HouseNumber in tags, Street in tags, City in tags;
      && (h && s && c ==> Address(tags) == tags[HouseNumber] + ", " + tags[Street] + ", " + tags[City])
      && (h && s && !c ==> Address(tags) == tags[HouseNumber] + ", " + tags[Street])
      && (h && !s && c ==> Address(tags) == tags[HouseNumber] + ", " + tags[City])
      && (!h && s && c ==> Address(tags) == tags[Street] + ", " + tags[City])
      && (h && !s && !c ==> Address(tags) == tags[HouseNumber])
      && (!h && s && !c ==> Address(tags) == tags[Street])
      && (!h && !s && c ==> Address(tags) == tags[City])
      && (!h && !s && !c && FullAddress in tags ==> Address(tags) == tags[FullAddress])
      && (!h && !s && !c && FullAddress !in tags ==> Address(tags) == NoAddress)
  {
    AddressParts(tags);
    var h, st, c := HouseNumber in tags, Street in tags, City in tags;
    if h && st && c {
      assert Part(tags, HouseNumber) + Part(tags, Street) + Part(tags, City)
          == [tags[HouseNumber], tags[Street], tags[City]];
      JoinThree(tags[HouseNumber], tags[Street], tags[City], ", ");
    } else if h && st {
      assert Part(tags, HouseNumber) + Part(tags, Street) + Part(tags, City)
          == [tags[HouseNumber], tags[Street]];
      JoinTwo(tags[HouseNumber], tags[Street], ", ");
    } else if h && c {
      assert Part(tags, HouseNumber) + Part(tags, Street) + Part(tags, City)
          == [tags[HouseNumber], tags[City]];
      JoinTwo(tags[HouseNumber], tags[City], ", ");
    } else if st && c {
      assert Part(tags, HouseNumber) + Part(tags, Street) + Part(tags, City)
          == [tags[Street], tags[City]];
      JoinTwo(tags[Street], tags[City], ", ");
    } else if h {
      assert Part(tags, HouseNumber) + Part(tags, Street) + Part(tags, City) == [tags[HouseNumber]];
    } else if st {
      assert Part(tags, HouseNumber) + Part(tags, Street) + Part(tags, City) == [tags[Street]];
    } else if c {
      assert Part(tags, HouseNumber) + Part(tags, Street) + Part(tags, City) == [tags[City]];
    } else {
      assert Part(tags, HouseNumber) + Part(tags, Street) + Part(tags, City) == [];
    }
  }

  /** Only the four address tags matter. */
  lemma AddressReadsOnlyAddressTags(t1: map<string, string>, t2: map<string, string>)
    requires forall k :: k in AddressKeys || k == FullAddress ==>
               (k in t1 <==> k in t2) && (k in t1 ==> t1[k] == t2[k])
    ensures Address(t1) == Address(t2)
  {
    AddressParts(t1);
    AddressParts(t2);
    assert forall k :: k in AddressKeys ==> Part(t1, k) == Part(t2, k);
  }

  /** Once any of the three parts is present, the full-address tag is ignored. */
  lemma PartsTakePrecedence(tags: map<string, string>, full: string)
    requires HouseNumber in tags || Street in tags || City in tags
    ensures Address(tags[FullAddress := full]) == Address(tags)
  {
    AddressReadsOnlyAddressTags(tags[FullAddress := full], tags[FullAddress := full]);
    AddressParts(tags);
    AddressParts(tags[FullAddress := full]);
    assert forall k :: k in AddressKeys ==> Part(tags, k) == Part(tags[FullAddress := full], k);
  }
}
