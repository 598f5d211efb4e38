// The table of contents of the JSON license list: the list version, the
// release date and one summary per listed license.

module LicenseToc {
  import opened Wrappers

  /** One license of the table of contents, as read from the JSON text; any
    * string member may be missing. */
  datatype LicenseJson = LicenseJson(
    reference: Option<string>,
    isDeprecatedLicenseId: bool,
    detailsUrl: Option<string>,
    referenceNumber: int,
    name: Option<string>,
    licenseId: Option<string>,
    seeAlso: Option<seq<Option<string>>>,
    isOsiApproved: bool)

  /** The table of contents; a missing "licenses" member leaves None. */
  datatype LicenseJsonToc = LicenseJsonToc(
    licenseListVersion: Option<string>,
    licenses: Option<seq<LicenseJson>>,
    releaseDate: Option<string>)

  /** The license IDs of a list of licenses, a missing ID included as None. */
  function IdsOf(ls: seq<LicenseJson>): set<Option<string>>
    decreases |ls|
  {
    if ls == [] then {} else IdsOf(ls[..|ls| - 1]) + {ls[|ls| - 1].licenseId}
  }

  /** getLicenseIds: the set of the IDs of the licenses listed, empty when
    * there is no list. */
  method GetLicenseIds(toc: LicenseJsonToc) returns (r: set<Option<string>>)
    ensures toc.licenses.None? ==> r == {}
    ensures toc.licenses.Some? ==> r == IdsOf(toc.licenses.value)
  {
    r := {};
    if toc.licenses.None? {
      return;
    }
    var ls := toc.licenses.value;
    var i := 0;
    while i < |ls|
      invariant 0 <= i <= |ls|
      invariant r == IdsOf(ls[..i])
    {
      assert ls[..i + 1][..i] == ls[..i];
      r := r + {ls[i].licenseId};
      i := i + 1;
    }
    assert ls[..|ls|] == ls;
  }

  /** Every listed license's ID is in the set, and every member of the set
    * is the ID of a listed license. */
  lemma {:induction false} IdsOfMembers(ls: seq<LicenseJson>)
    ensures forall k :: 0 <= k < |ls| ==> ls[k].licenseId in IdsOf(ls)
    ensures forall id :: id in IdsOf(ls) ==> exists k :: 0 <= k < |ls| && ls[k].licenseId == id
    decreases |ls|
  {
    if ls != [] {
      var n := |ls| - 1;
      IdsOfMembers(ls[..n]);
      forall k | 0 <= k < n ensures ls[k].licenseId in IdsOf(ls) {
        assert ls[..n][k] == ls[k];
      }
      forall id | id in IdsOf(ls) ensures exists k :: 0 <= k < |ls| && ls[k].licenseId == id {
        if id != ls[n].licenseId {
          var k :| 0 <= k < n && ls[..n][k].licenseId == id;
          assert ls[..n][k] == ls[k];
        }
      }
    }
  }

  /** The set has at most one member per listed license, and exactly one
    * when no two licenses share an ID. */
  lemma {:induction false} IdsOfSize(ls: seq<LicenseJson>)
    ensures |IdsOf(ls)| <= |ls|
    ensures (forall j, k :: 0 <= j < k < |ls| ==> ls[j].licenseId != ls[k].licenseId) ==> |IdsOf(ls)| == |ls|
    decreases |ls|
  {
    if ls != [] {
      var n := |ls| - 1;
      IdsOfSize(ls[..n]);
      if forall j, k :: 0 <= j < k < |ls| ==> ls[j].licenseId != ls[k].licenseId {
        assert forall j, k :: 0 <= j < k < n ==> ls[..n][j].licenseId != ls[..n][k].licenseId;
        IdsOfMembers(ls[..n]);
      }
    }
  }
}
