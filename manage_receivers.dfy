/** The administrator's receiver list: a search box and the receiver count. */
module ManageReceivers {
  import opened Wrappers
  import opened Text
  import opened Seqs
  import opened Records

  /** An optional field is only searched when it is present. */
  predicate OptionalContains(field: Option<string>, searchTerm: string)
  {
    field.Some? && Contains(Lower(field.value), Lower(searchTerm))
  }

  /** Name or email contains the term, or the blood type or hospital when present, ignoring case. */
  predicate ReceiverMatches(r: Receiver, searchTerm: string)
  {
    Contains(Lower(r.name), Lower(searchTerm)) ||
    Contains(Lower(r.email), Lower(searchTerm)) ||
    OptionalContains(r.bloodType, searchTerm) ||
    OptionalContains(r.hospital, searchTerm)
  }

  /** `filteredReceivers`: every receiver for an empty box, else those matching, in list order. */
  function FilteredReceivers(receivers: seq<Receiver>, searchTerm: string): (r: seq<Receiver>)
    ensures searchTerm == "" ==> r == receivers
    ensures Subseq(r, receivers)
    ensures forall i :: 0 <= i < |r| ==> r[i] in receivers && (searchTerm != "" ==> ReceiverMatches(r[i], searchTerm))
    ensures forall i :: 0 <= i < |receivers| && ReceiverMatches(receivers[i], searchTerm) ==> receivers[i] in r
    ensures multiset(r) <= multiset(receivers)
    ensures forall i :: 0 <= i < |receivers| && ReceiverMatches(receivers[i], searchTerm) ==>
      multiset(r)[receivers[i]] == multiset(receivers)[receivers[i]]
  {
    if searchTerm == "" then
      SubseqRefl(receivers);
      receivers
    else
      var p := (x: Receiver) => ReceiverMatches(x, searchTerm);
      var r := Filter(receivers, p);
      FilterMultiset(receivers, p);
      assert forall i :: 0 <= i < |r| ==> p(r[i]);
      r
  }

  /** A receiver without blood type or hospital is found only by name or email. */
  lemma MissingFieldsNotSearched(r: Receiver, searchTerm: string)
    requires r.bloodType.None? && r.hospital.None?
    ensures ReceiverMatches(r, searchTerm) <==>
      Contains(Lower(r.name), Lower(searchTerm)) || Contains(Lower(r.email), Lower(searchTerm))
  {
  }

  /** The blood type column shows "Unknown" when a receiver has none. */
  function BloodTypeShown(r: Receiver): (s: string)
    ensures r.bloodType.None? ==> s == "Unknown"
    ensures r.bloodType.Some? && r.bloodType.value != "" ==> s == r.bloodType.value
  {
    if r.bloodType.Some? && r.bloodType.value != "" then r.bloodType.value else "Unknown"
  }
}
