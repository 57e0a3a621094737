/** The endpoint names of src/destination.cc, and what is special about them. */
module EndPoints {
  const ENDPOINTS: seq<string> := [
    "s3.amazonaws.com",
    "s3-us-west-2.amazonaws.com",
    "s3-us-west-1.amazonaws.com",
    "s3-eu-west-1.amazonaws.com",
    "s3-ap-southeast-1.amazonaws.com",
    "s3-ap-northeast-1.amazonaws.com",
    "s3-sa-east-1.amazonaws.com"]

  /** No name can end another: they differ at some place counted from their ends. */
  ghost predicate DifferAt(s: string, t: string, k: nat) {
    k < |s| && k < |t| && s[|s| - 1 - k] != t[|t| - 1 - k]
  }

  lemma NamesDiffer(i: nat, j: nat)
    requires i < |ENDPOINTS| && j < |ENDPOINTS| && i != j
    ensures exists k :: DifferAt(ENDPOINTS[i], ENDPOINTS[j], k)
  {
    var k := PlaceOfDifference(if i < j then i else j, if i < j then j else i);
    assert DifferAt(ENDPOINTS[i], ENDPOINTS[j], k);
  }

  lemma PlaceOfDifference(a: nat, b: nat) returns (k: nat)
    requires a < b < |ENDPOINTS|
    ensures DifferAt(ENDPOINTS[a], ENDPOINTS[b], k)
  {
    k := if a < 2 then 14 else if a < 4 && 4 <= b then 18 else if a == 2 then 21 else if b == 6 then 20 else 22;
  }

  /** No part of a name that follows one of its dots can begin a name. */
  lemma BehindDots(i: nat, q: nat)
    requires i < |ENDPOINTS| && q < |ENDPOINTS[i]| && ENDPOINTS[i][q] == '.'
    ensures q + 1 < |ENDPOINTS[i]| && ENDPOINTS[i][q + 1] != 's'
  {
    if i < 4 {
      BehindDotsInFirst(i, q);
    } else {
      BehindDotsInLast(i, q);
    }
  }

  lemma BehindDotsInFirst(i: nat, q: nat)
    requires i < 4 && q < |ENDPOINTS[i]| && ENDPOINTS[i][q] == '.'
    ensures q + 1 < |ENDPOINTS[i]| && ENDPOINTS[i][q + 1] != 's'
  {
  }

  lemma BehindDotsInLast(i: nat, q: nat)
    requires 4 <= i < |ENDPOINTS| && q < |ENDPOINTS[i]| && ENDPOINTS[i][q] == '.'
    ensures q + 1 < |ENDPOINTS[i]| && ENDPOINTS[i][q + 1] != 's'
  {
  }

  lemma NamesBegin(i: nat)
    requires i < |ENDPOINTS|
    ensures |ENDPOINTS[i]| > 0 && ENDPOINTS[i][0] == 's' && '/' !in ENDPOINTS[i]
  {
  }
}
