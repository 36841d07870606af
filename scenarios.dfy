/**
 * What the console's writes mean for the lobby's reads: both pages work on
 * the same players collection, so the console's register, delete and a
 * revocation of `active` show up in what the lobby admits.
 */
module Scenarios {
  import opened Directory
  import opened CodeFormat
  import Admin
  import Lobby

  /** A player the console has just registered is admitted by the lobby under the normalised code, with the trimmed name. */
  lemma RegisteredPlayerIsAdmitted(docs: Store, rawName: string, rawCode: string, now: nat)
    requires Admin.Register(docs, rawName, rawCode, now, Admin.NoFault).Registered?
    ensures var after := Admin.Commit(docs, Admin.Register(docs, rawName, rawCode, now, Admin.NoFault));
            Lobby.FetchPlayer(true, after, NormalizeCode(rawCode))
              == Some(Lobby.Player(Trim(rawName), NormalizeCode(rawCode), true))
  {
    var r := Admin.Register(docs, rawName, rawCode, now, Admin.NoFault);
    assert Admin.Commit(docs, r)[r.key] == r.entry;
  }

  /** After the console deletes a code, the lobby no longer finds it. */
  lemma DeletedPlayerIsRejected(docs: Store, code: string)
    ensures Lobby.FetchPlayer(true, Admin.Remove(docs, code), code).None?
  {
  }

  /**
   * Setting `active` to false on a document revokes it for the lobby, yet the
   * document stays in the collection: the console's snapshot still lists it
   * and its count does not change.
   */
  lemma RevokedPlayerStaysListed(docs: Store, code: string, snapshot: seq<DocSnap>)
    requires code in docs
    requires Admin.Enumerates(snapshot, docs[code := docs[code].(active := ActiveFalse)])
    ensures Lobby.FetchPlayer(true, docs[code := docs[code].(active := ActiveFalse)], code).None?
    ensures |snapshot| == |docs|
    ensures exists i :: 0 <= i < |snapshot| && Admin.RowOf(snapshot[i]).deleteCode == code
  {
    var revoked := docs[code := docs[code].(active := ActiveFalse)];
    assert revoked.Keys == docs.Keys;
    Admin.SnapshotCountIsStoreSize(snapshot, revoked);
    assert code in revoked;
  }

  /** "AB1" obeys the code rule and is left as it is by normalisation. */
  lemma SampleCodeIsValid()
    ensures IsValidCode("AB1") && Upper("AB1") == "AB1" && NormalizeCode("AB1") == "AB1"
  {
    var c := "AB1";
    assert |c| == 3 && c[0] == 'A' && c[1] == 'B' && c[2] == '1';
    assert forall i :: 0 <= i < |c| ==> IsCodeChar(c[i]);
    ValidCodeIsNormal(c);
  }

  /** Entering "AB1" for an active player named "Ada" admits Ada and caches her code and name. */
  method AdaIsAdmitted()
  {
    var store: Store := map["AB1" := Entry(Some("Ada"), Some("AB1"), ActiveTrue, 0)];
    var gate := new Lobby.Gate(map[]);
    gate.Start(true, store, false);
    SampleCodeIsValid();
    gate.TypeCode("AB1");
    gate.Submit();
    assert gate.inFlight == Some("AB1");
    var ada := Lobby.Player("Ada", "AB1", true);
    assert Lobby.FetchPlayer(true, store, "AB1") == Some(ada);
    gate.Complete(store, false);
    assert gate.view == Lobby.Admitted(ada);
    assert gate.storage[Lobby.CodeKey] == "AB1" && gate.storage[Lobby.NameKey] == "Ada";
    assert gate.codeInput == "" && !gate.buttonDisabled;
  }

  /** The console adds a player, then refuses a second player with the same code. */
  method SameCodeTwice()
  {
    SampleCodeIsValid();
    TrimOfTrimmed("Ada");
    TrimOfTrimmed("Bea");
    var console := new Admin.Console(map[]);
    console.TypeName("Ada");
    console.TypeCode("AB1");
    console.Submit(1, Admin.NoFault);
    assert console.docs.Keys == {"AB1"};
    console.TypeName("Bea");
    console.TypeCode("AB1");
    console.Submit(2, Admin.NoFault);
    assert console.status == Admin.Refused(Admin.CodeAlreadyExists);
    assert |console.docs| == 1;
  }
}
