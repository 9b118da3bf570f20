/**
 * The SMS channel: the message template and the batch of `pending_sms`
 * records, one per selected donor that has a phone.
 */
module Sms {
  import opened Wrappers
  import opened Records
  import opened Intake

  const SmsPrefix: string := "BloodBridge SOS: Need "
  const NoteLabel: string := "Note: "
  const CallToAction: string := "If you can help, open the app."

  /** The fixed opening: the system's name, the blood group and the district. */
  function Head(bloodGroup: string, district: string): string
  {
    SmsPrefix + bloodGroup + " in " + district + ". "
  }

  /** The optional clause, present only for a non-empty note. */
  function NoteClause(note: string): (c: string)
    ensures c == "" <==> note == ""
  {
    if note != "" then NoteLabel + note + ". " else ""
  }

  /** The SMS text: head, optional note clause, call to action. */
  function Message(bloodGroup: string, district: string, note: string): (m: string)
    ensures |m| == |Head(bloodGroup, district)| + |CallToAction| + (if note == "" then 0 else |note| + 8)
  {
    Head(bloodGroup, district) + NoteClause(note) + CallToAction
  }

  /**
   * Reads the note back out of a message for the given blood group and
   * district: Some("") for a message without a note clause, None for a text
   * that is not such a message.
   */
  function NoteOf(bloodGroup: string, district: string, m: string): Option<string>
  {
    var h := Head(bloodGroup, district);
    if |m| < |h| + |CallToAction| || m[..|h|] != h || m[|m| - |CallToAction|..] != CallToAction then None
    else
      var mid := m[|h|..|m| - |CallToAction|];
      if mid == "" then Some("")
      else if |mid| > 8 && mid[..6] == NoteLabel && mid[|mid| - 2..] == ". " then Some(mid[6..|mid| - 2])
      else None
  }

  /**
   * Every message opens with the head and closes with the call to action; what
   * lies between is the note clause, which only a non-empty note adds.
   */
  lemma MessageShape(bloodGroup: string, district: string, note: string)
    ensures var m := Message(bloodGroup, district, note);
            var h := Head(bloodGroup, district);
            && |m| == |h| + |CallToAction| + (if note == "" then 0 else |note| + 8)
            && m[..|h|] == h
            && m[|h|..|m| - |CallToAction|] == NoteClause(note)
            && m[|m| - |CallToAction|..] == CallToAction
  {
    var h := Head(bloodGroup, district);
    var m := h + NoteClause(note) + CallToAction;
    assert m[..|h|] == h;
    assert m[|h|..|m| - |CallToAction|] == NoteClause(note);
    assert m[|m| - |CallToAction|..] == CallToAction;
  }

  /** The message carries the note verbatim: the note read back is the note put in. */
  lemma {:induction false} MessageNoteRoundTrip(bloodGroup: string, district: string, note: string)
    ensures NoteOf(bloodGroup, district, Message(bloodGroup, district, note)) == Some(note)
  {
    MessageShape(bloodGroup, district, note);
    if note != "" {
      var mid := NoteLabel + note + ". ";
      assert mid[..6] == NoteLabel;
      assert mid[|mid| - 2..] == ". ";
      assert mid[6..|mid| - 2] == note;
    }
  }

  /** Only a message built by the template reads back a note, and then exactly its note. */
  lemma {:induction false} NoteOfSound(bloodGroup: string, district: string, m: string, note: string)
    requires NoteOf(bloodGroup, district, m) == Some(note)
    ensures m == Message(bloodGroup, district, note)
  {
    var h := Head(bloodGroup, district);
    var k := |m| - |CallToAction|;
    var mid := m[|h|..k];
    assert m == m[..|h|] + mid + m[k..];
    if mid != "" {
      assert mid == mid[..6] + mid[6..|mid| - 2] + mid[|mid| - 2..];
    }
    assert mid == NoteClause(note);
  }

  /** Two notes give the same message (for one blood group and district) only if they are equal. */
  lemma MessageDeterminesNote(bloodGroup: string, district: string, n1: string, n2: string)
    requires Message(bloodGroup, district, n1) == Message(bloodGroup, district, n2)
    ensures n1 == n2
  {
    MessageNoteRoundTrip(bloodGroup, district, n1);
    MessageNoteRoundTrip(bloodGroup, district, n2);
  }

  predicate HasPhone(d: Donor)
  {
    Truthy(d.phone)
  }

  /** The record `batch.set` writes for one donor with a phone. */
  function RecordFor(sosId: string, key: Key, d: Donor): (rec: PendingSms)
    requires HasPhone(d)
    ensures rec.sosId == sosId && rec.donorId == d.id && rec.status == Pending
    ensures rec.phone != "" && d.phone == Some(rec.phone)
    ensures rec.message == Message(key.bloodGroup, key.district, key.note)
  {
    PendingSms(sosId, d.id, d.phone.value, Message(key.bloodGroup, key.district, key.note), Pending)
  }

  /** One pending record per donor with a phone, in donor order. */
  function PendingRecords(sosId: string, key: Key, donors: seq<Donor>): (r: seq<PendingSms>)
    ensures |r| <= |donors|
  {
    if donors == [] then []
    else
      (if HasPhone(donors[0]) then [RecordFor(sosId, key, donors[0])] else [])
      + PendingRecords(sosId, key, donors[1..])
  }

  /**
   * Every record belongs to a donor with a phone and carries the request's id,
   * the template message and status "pending"; every donor with a phone has its record.
   */
  lemma {:induction false} PendingRecordsExactly(sosId: string, key: Key, donors: seq<Donor>)
    ensures forall rec :: rec in PendingRecords(sosId, key, donors) ==>
      rec.sosId == sosId && rec.status == Pending && rec.phone != ""
      && rec.message == Message(key.bloodGroup, key.district, key.note)
    ensures forall rec :: rec in PendingRecords(sosId, key, donors) ==>
      exists d :: d in donors && HasPhone(d) && rec == RecordFor(sosId, key, d)
    ensures forall d :: d in donors && HasPhone(d) ==> RecordFor(sosId, key, d) in PendingRecords(sosId, key, donors)
  {
    if donors != [] {
      PendingRecordsExactly(sosId, key, donors[1..]);
      assert donors == [donors[0]] + donors[1..];
    }
  }

  /** The batch keeps donor order: it distributes over concatenation. */
  lemma {:induction false} PendingRecordsAppend(sosId: string, key: Key, a: seq<Donor>, b: seq<Donor>)
    ensures PendingRecords(sosId, key, a + b) == PendingRecords(sosId, key, a) + PendingRecords(sosId, key, b)
  {
    if a != [] {
      assert (a + b)[1..] == a[1..] + b;
      PendingRecordsAppend(sosId, key, a[1..], b);
    } else {
      assert a + b == b;
    }
  }

  predicate DistinctDonorIds(records: seq<PendingSms>)
  {
    forall k, l :: 0 <= k < l < |records| ==> records[k].donorId != records[l].donorId
  }

  /** Every record of the batch names the document id of one of the donors. */
  lemma RecordIdsFromDonors(sosId: string, key: Key, donors: seq<Donor>, rec: PendingSms)
    requires rec in PendingRecords(sosId, key, donors)
    ensures exists j :: 0 <= j < |donors| && rec.donorId == donors[j].id
  {
    PendingRecordsExactly(sosId, key, donors);
    var d :| d in donors && HasPhone(d) && rec == RecordFor(sosId, key, d);
    var j :| 0 <= j < |donors| && donors[j] == d;
  }

  /** With distinct document ids (as a Firestore collection has), no donor gets two records. */
  lemma {:induction false} NoDuplicateRecords(sosId: string, key: Key, donors: seq<Donor>)
    requires DistinctIds(donors)
    ensures DistinctDonorIds(PendingRecords(sosId, key, donors))
  {
    if donors != [] {
      var tail := donors[1..];
      var rest := PendingRecords(sosId, key, tail);
      var r := PendingRecords(sosId, key, donors);
      assert DistinctIds(tail) by {
        forall i, j | 0 <= i < j < |tail| ensures tail[i].id != tail[j].id {
          assert tail[i] == donors[i + 1] && tail[j] == donors[j + 1];
        }
      }
      NoDuplicateRecords(sosId, key, tail);
      if HasPhone(donors[0]) {
        assert r == [RecordFor(sosId, key, donors[0])] + rest;
        forall k, l | 0 <= k < l < |r| ensures r[k].donorId != r[l].donorId {
          assert r[l] == rest[l - 1];
          if k > 0 {
            assert r[k] == rest[k - 1];
          } else {
            RecordIdsFromDonors(sosId, key, tail, rest[l - 1]);
            var j :| 0 <= j < |tail| && rest[l - 1].donorId == tail[j].id;
            assert tail[j] == donors[j + 1];
          }
        }
      } else {
        assert r == rest;
      }
    }
  }

  /** With distinct document ids, a donor without a phone gets no record. */
  lemma PhonelessDonorNotQueued(sosId: string, key: Key, donors: seq<Donor>, i: nat)
    requires DistinctIds(donors)
    requires i < |donors| && !HasPhone(donors[i])
    ensures forall rec :: rec in PendingRecords(sosId, key, donors) ==> rec.donorId != donors[i].id
  {
    PendingRecordsExactly(sosId, key, donors);
    forall rec | rec in PendingRecords(sosId, key, donors) ensures rec.donorId != donors[i].id {
      var d :| d in donors && HasPhone(d) && rec == RecordFor(sosId, key, d);
      var j :| 0 <= j < |donors| && donors[j] == d;
      assert j != i;
    }
  }

  /** The Firestore write batch: `set` adds one pending record to the writes it will commit. */
  class WriteBatch {
    var writes: seq<PendingSms>
    var committed: bool

    constructor ()
      ensures writes == [] && !committed
    {
      writes := [];
      committed := false;
    }

    /** A batch takes no more writes once committed. */
    method Set(rec: PendingSms)
      requires !committed
      modifies this
      ensures writes == old(writes) + [rec] && !committed
    {
      writes := writes + [rec];
    }

    /** `commit` writes every record set so far, all at once, and closes the batch. */
    method Commit() returns (written: seq<PendingSms>)
      requires !committed
      modifies this
      ensures written == old(writes) && writes == old(writes) && committed
    {
      written := writes;
      committed := true;
    }
  }

  /**
   * The `forEach` over the donors snapshot: skips a donor without a phone and
   * otherwise adds its record to one batch; returns what the commit writes.
   */
  method QueueSms(sosId: string, key: Key, donors: seq<Donor>) returns (committed: seq<PendingSms>)
    ensures committed == PendingRecords(sosId, key, donors)
  {
    var batch := new WriteBatch();
    for i := 0 to |donors|
      invariant batch.writes == PendingRecords(sosId, key, donors[..i]) && !batch.committed
    {
      assert donors[..i + 1] == donors[..i] + [donors[i]];
      PendingRecordsAppend(sosId, key, donors[..i], [donors[i]]);
      var donor := donors[i];
      if !HasPhone(donor) {
        continue;
      }
      batch.Set(RecordFor(sosId, key, donor));
    }
    assert donors[..|donors|] == donors;
    committed := batch.Commit();
  }
}
