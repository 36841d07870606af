/**
 * The operator console (public/admin/admin.js): the add-player form, the
 * per-row delete button, and the live table of players with its count.
 *
 * The Firestore `players` collection is the map `Console.docs`; `getDoc`,
 * `setDoc` and `deleteDoc` are reads and updates of that map, each handler
 * runs as one sequential step, and a rejected store call is the `Fault`
 * (or `bool`) parameter of the handler.
 */
module Admin {
  import opened Directory
  import opened CodeFormat

  /** Which store call of the add handler rejects, if any. */
  datatype Fault = NoFault | ReadFails | WriteFails

  /** Why the add handler stops without creating a player. */
  datatype RegisterError = NameRequired | InvalidCodeFormat | CodeAlreadyExists | AddFailed

  /** What the add handler does to the store: create one document, or nothing. */
  datatype Registration = Registered(key: string, entry: Entry) | Rejected(error: RegisterError)

  /** The status line under the form. */
  datatype Status =
    | Blank
    | Refused(error: RegisterError)
    | PlayerAdded(name: string, code: string)
    | PlayerDeleted(code: string)
    | DeleteFailed
    | LoadFailed

  /**
   * The text the console shows for a status. Only the blank status shows
   * nothing, which is when `setStatus` also drops the status attribute.
   */
  function StatusText(s: Status): (text: string)
    ensures text == "" <==> s == Blank
  {
    match s
    case Blank => ""
    case Refused(NameRequired) => "Player name is required."
    case Refused(InvalidCodeFormat) => "Code must be 3–16 characters (A–Z, 0–9)."
    case Refused(CodeAlreadyExists) => "Code already exists."
    case Refused(AddFailed) => "Failed to add player."
    case PlayerAdded(name, code) => "Player " + name + " (" + code + ") added."
    case PlayerDeleted(code) => "Player " + code + " deleted."
    case DeleteFailed => "Failed to delete player."
    case LoadFailed => "Failed to load players."
  }

  /** The status the add handler leaves: the added player's name and code, or the refusal. */
  function StatusOf(r: Registration): (s: Status)
    ensures s.PlayerAdded? <==> r.Registered?
    ensures r.Registered? ==> s.code == r.key && s.name == OrElse(r.entry.name, "")
    ensures r.Rejected? ==> s.Refused? && s.error == r.error
  {
    match r
    case Registered(key, entry) => PlayerAdded(OrElse(entry.name, ""), key)
    case Rejected(e) => Refused(e)
  }

  // ---------------------------------------------------------------- registration

  /**
   * The add handler's decision: trim the name, trim and upper-case the code,
   * then refuse an empty name, then a malformed code, then (after reading the
   * store) a code that already has a document, whatever its `active` value;
   * otherwise create `{name, code, active: true, createdAt}` under the code.
   */
  function Register(docs: Store, rawName: string, rawCode: string, now: nat, fault: Fault): (r: Registration)
    ensures r.Registered? <==>
      Trim(rawName) != [] && IsValidCode(NormalizeCode(rawCode)) && fault == NoFault && NormalizeCode(rawCode) !in docs
    ensures r.Registered? ==>
      r.key == NormalizeCode(rawCode) && r.entry == Entry(Some(Trim(rawName)), Some(r.key), ActiveTrue, now)
    ensures r == Rejected(NameRequired) <==> Trim(rawName) == []
    ensures r == Rejected(InvalidCodeFormat) <==> Trim(rawName) != [] && !IsValidCode(NormalizeCode(rawCode))
    ensures r == Rejected(CodeAlreadyExists) <==>
      Trim(rawName) != [] && IsValidCode(NormalizeCode(rawCode)) && fault != ReadFails && NormalizeCode(rawCode) in docs
  {
    var name := Trim(rawName);
    var code := NormalizeCode(rawCode);
    if name == [] then Rejected(NameRequired)
    else if !CodeRegexTest(code) then Rejected(InvalidCodeFormat)
    else if fault == ReadFails then Rejected(AddFailed)
    else if code in docs then Rejected(CodeAlreadyExists)
    else if fault == WriteFails then Rejected(AddFailed)
    else
      assert IsValidCode(code);
      assert fault == NoFault;
      assert code !in docs;
      Registered(code, Entry(Some(name), Some(code), ActiveTrue, now))
  }

  /** The store after the handler: the one `setDoc`, if it happened. */
  function Commit(docs: Store, r: Registration): (after: Store)
    ensures r.Registered? ==> after.Keys == docs.Keys + {r.key} && after[r.key] == r.entry
    ensures r.Registered? ==> forall k :: k in docs && k != r.key ==> after[k] == docs[k]
    ensures r.Rejected? ==> after == docs
  {
    if r.Registered? then docs[r.key := r.entry] else docs
  }

  /**
   * A registration adds exactly one document, under a key that was free, and
   * leaves every other document as it was; a refusal leaves the store alone.
   */
  lemma RegisterFrame(docs: Store, rawName: string, rawCode: string, now: nat, fault: Fault)
    ensures var r := Register(docs, rawName, rawCode, now, fault);
            var after := Commit(docs, r);
            && (r.Registered? ==>
                  && r.key !in docs
                  && after.Keys == docs.Keys + {r.key}
                  && |after| == |docs| + 1
                  && after[r.key].active == ActiveTrue
                  && (forall k :: k in docs ==> after[k] == docs[k]))
            && (r.Rejected? ==> after == docs)
  {
    var r := Register(docs, rawName, rawCode, now, fault);
    if r.Registered? {
      assert Commit(docs, r).Keys == docs.Keys + {r.key};
    }
  }

  /**
   * An empty name or a malformed code is refused before the store is used:
   * the outcome is the same whatever the store holds and whether or not its
   * calls would fail.
   */
  lemma ValidationPrecedesStore(docs: Store, docs': Store, rawName: string, rawCode: string,
                                now: nat, now': nat, fault: Fault, fault': Fault)
    requires Trim(rawName) == [] || !IsValidCode(NormalizeCode(rawCode))
    ensures Register(docs, rawName, rawCode, now, fault) == Register(docs', rawName, rawCode, now', fault')
    ensures Register(docs, rawName, rawCode, now, fault).Rejected?
  {
  }

  /**
   * Registering the same code twice in sequence: the second attempt (with any
   * non-empty name and any spelling that normalises to the same code) finds
   * the first document and fails with `CodeAlreadyExists`, unless its read
   * fails; the store has grown by exactly one.
   */
  lemma RegisterTwice(docs: Store, name1: string, code1: string, now1: nat,
                      name2: string, code2: string, now2: nat, fault2: Fault)
    requires Register(docs, name1, code1, now1, NoFault).Registered?
    requires Trim(name2) != [] && NormalizeCode(code2) == NormalizeCode(code1) && fault2 != ReadFails
    ensures var once := Commit(docs, Register(docs, name1, code1, now1, NoFault));
            && Register(once, name2, code2, now2, fault2) == Rejected(CodeAlreadyExists)
            && Commit(once, Register(once, name2, code2, now2, fault2)) == once
            && |once| == |docs| + 1
  {
    RegisterFrame(docs, name1, code1, now1, NoFault);
  }

  /**
   * The status line the add handler leaves, word for word: the added player
   * with the trimmed name and the normalised code, or the refusal's message.
   */
  lemma RegisterStatusText(docs: Store, rawName: string, rawCode: string, now: nat, fault: Fault)
    ensures var text := StatusText(StatusOf(Register(docs, rawName, rawCode, now, fault)));
            && (Register(docs, rawName, rawCode, now, fault).Registered? ==>
                  text == "Player " + Trim(rawName) + " (" + NormalizeCode(rawCode) + ") added.")
            && (Trim(rawName) == [] ==> text == "Player name is required.")
            && (Trim(rawName) != [] && !IsValidCode(NormalizeCode(rawCode)) ==>
                  text == "Code must be 3–16 characters (A–Z, 0–9).")
            && ((Trim(rawName) != [] && IsValidCode(NormalizeCode(rawCode)) && fault != NoFault
                 && (fault == ReadFails || NormalizeCode(rawCode) !in docs))
                ==> text == "Failed to add player.")
  {
  }

  // ---------------------------------------------------------------- deletion

  /** `deleteDoc`: the store without the document under `code`; every other document is kept as it was. */
  function Remove(docs: Store, code: string): (after: Store)
    ensures after.Keys == docs.Keys - {code}
    ensures forall k :: k in after ==> after[k] == docs[k]
    ensures |after| == if code in docs then |docs| - 1 else |docs|
  {
    docs - {code}
  }

  // ---------------------------------------------------------------- the table

  /** One table row: the name cell, the code cell and the code the row's delete button carries. */
  datatype Row = Row(name: string, code: string, deleteCode: string)

  /** The row drawn for one document: `data.name || "—"`, `data.code || doc.id`, and the document id on the button. */
  function RowOf(d: DocSnap): (row: Row)
    ensures row.deleteCode == d.id
    ensures row.name == (if d.data.name.Some? && d.data.name.value != "" then d.data.name.value else "—")
    ensures row.code == (if d.data.code.Some? && d.data.code.value != "" then d.data.code.value else d.id)
    ensures row.name != ""
  {
    Row(OrElse(d.data.name, "—"), OrElse(d.data.code, d.id), d.id)
  }

  /** The ids of a snapshot's documents. */
  function Ids(snapshot: seq<DocSnap>): (ids: set<string>)
    ensures forall i :: 0 <= i < |snapshot| ==> snapshot[i].id in ids
    ensures forall k :: k in ids ==> exists i :: 0 <= i < |snapshot| && snapshot[i].id == k
  {
    if snapshot == [] then {} else {snapshot[0].id} + Ids(snapshot[1..])
  }

  /** No id occurs twice: the store is keyed by id, so a snapshot never repeats one. */
  ghost predicate DistinctIds(snapshot: seq<DocSnap>) {
    forall i, j :: 0 <= i < j < |snapshot| ==> snapshot[i].id != snapshot[j].id
  }

  /** `snapshot` lists every document of `docs` once, in some order, with its data. */
  ghost predicate Enumerates(snapshot: seq<DocSnap>, docs: Store) {
    && DistinctIds(snapshot)
    && (forall i :: 0 <= i < |snapshot| ==> snapshot[i].id in docs && docs[snapshot[i].id] == snapshot[i].data)
    && (forall k :: k in docs ==> exists i :: 0 <= i < |snapshot| && snapshot[i].id == k)
  }

  lemma {:induction false} DistinctIdsCount(snapshot: seq<DocSnap>)
    requires DistinctIds(snapshot)
    ensures |Ids(snapshot)| == |snapshot|
  {
    if snapshot != [] {
      var rest := snapshot[1..];
      assert DistinctIds(rest) by {
        forall i, j | 0 <= i < j < |rest| ensures rest[i].id != rest[j].id {
          assert rest[i] == snapshot[i + 1] && rest[j] == snapshot[j + 1];
        }
      }
      DistinctIdsCount(rest);
      assert forall i :: 0 <= i < |rest| ==> rest[i].id != snapshot[0].id by {
        forall i | 0 <= i < |rest| ensures rest[i].id != snapshot[0].id {
          assert rest[i] == snapshot[i + 1];
        }
      }
    }
  }

  /** The count the console shows equals the number of documents in the collection. */
  lemma SnapshotCountIsStoreSize(snapshot: seq<DocSnap>, docs: Store)
    requires Enumerates(snapshot, docs)
    ensures |snapshot| == |docs|
  {
    DistinctIdsCount(snapshot);
    assert Ids(snapshot) == docs.Keys;
  }

  /** Adding one key to a collection adds exactly one document to any snapshot that lists it. */
  lemma SnapshotGrowsByOne(docs: Store, grown: Store, key: string, before: seq<DocSnap>, after: seq<DocSnap>)
    requires key !in docs && grown.Keys == docs.Keys + {key}
    requires Enumerates(before, docs) && Enumerates(after, grown)
    ensures |after| == |before| + 1
  {
    assert |grown.Keys| == |docs.Keys| + 1;
    SnapshotCountIsStoreSize(before, docs);
    SnapshotCountIsStoreSize(after, grown);
  }

  /** A document whose `code` field is its own non-empty id is shown by some row under that code. */
  lemma DocumentIsListed(docs: Store, key: string, snapshot: seq<DocSnap>)
    requires key in docs && key != "" && docs[key].code == Some(key)
    requires Enumerates(snapshot, docs)
    ensures exists i :: 0 <= i < |snapshot| && RowOf(snapshot[i]).code == key && RowOf(snapshot[i]).deleteCode == key
  {
    var i :| 0 <= i < |snapshot| && snapshot[i].id == key;
    assert snapshot[i].data == docs[key];
    assert RowOf(snapshot[i]).code == key;
  }

  /**
   * After a registration, the next snapshot of the collection is one row
   * longer than a snapshot taken before it, and one of its rows shows the new
   * code and carries it on its delete button.
   */
  lemma RegisteredPlayerIsListed(docs: Store, before: seq<DocSnap>, after: seq<DocSnap>,
                                 rawName: string, rawCode: string, now: nat)
    requires Register(docs, rawName, rawCode, now, NoFault).Registered?
    requires Enumerates(before, docs)
    requires Enumerates(after, Commit(docs, Register(docs, rawName, rawCode, now, NoFault)))
    ensures |after| == |before| + 1
    ensures exists i :: 0 <= i < |after| && RowOf(after[i]).code == NormalizeCode(rawCode)
                                          && RowOf(after[i]).deleteCode == NormalizeCode(rawCode)
  {
    var r := Register(docs, rawName, rawCode, now, NoFault);
    var grown := Commit(docs, r);
    SnapshotGrowsByOne(docs, grown, r.key, before, after);
    assert |r.key| >= MinCodeLength;
    DocumentIsListed(grown, r.key, after);
  }

  // ---------------------------------------------------------------- the console

  /** The page's state: the collection it writes to, the form, the status line and the table. */
  class Console {
    var docs: Store
    var status: Status
    var nameInput: string
    var codeInput: string
    var addDisabled: bool
    var rows: seq<Row>
    var count: nat

    /** The page as loaded: empty form, empty table, nothing said yet. */
    constructor (docs: Store)
      ensures this.docs == docs && status == Blank
      ensures nameInput == "" && codeInput == "" && !addDisabled
      ensures rows == [] && count == 0
    {
      this.docs := docs;
      status := Blank;
      nameInput, codeInput := "", "";
      addDisabled := false;
      rows, count := [], 0;
    }

    /** Typing in the name box. */
    method TypeName(text: string)
      modifies this`nameInput
      ensures nameInput == text
    {
      nameInput := text;
    }

    /** Typing in the code box: the input listener upper-cases the box's value as it is typed. */
    method TypeCode(text: string)
      modifies this`codeInput
      ensures codeInput == Upper(text)
    {
      codeInput := Upper(text);
    }

    /**
     * The form's submit handler. The code box is rewritten with the
     * normalised code; the add button is disabled only around the store
     * calls, so it ends enabled once they were reached; a successful add
     * resets the form.
     */
    method Submit(now: nat, fault: Fault)
      modifies this`docs, this`status, this`nameInput, this`codeInput, this`addDisabled
      ensures var r := Register(old(docs), old(nameInput), old(codeInput), now, fault);
              && docs == Commit(old(docs), r)
              && status == StatusOf(r)
              && nameInput == (if r.Registered? then "" else old(nameInput))
              && codeInput == (if r.Registered? then "" else NormalizeCode(old(codeInput)))
              && addDisabled == (if r == Rejected(NameRequired) || r == Rejected(InvalidCodeFormat)
                                 then old(addDisabled) else false)
    {
      status := Blank;
      var name := Trim(nameInput);
      var code := NormalizeCode(codeInput);
      codeInput := code;

      if name == [] {
        status := Refused(NameRequired);
        return;
      }
      if !CodeRegexTest(code) {
        status := Refused(InvalidCodeFormat);
        return;
      }

      addDisabled := true;
      if fault == ReadFails {
        status := Refused(AddFailed);
      } else if code in docs {
        status := Refused(CodeAlreadyExists);
      } else if fault == WriteFails {
        status := Refused(AddFailed);
      } else {
        docs := docs[code := Entry(Some(name), Some(code), ActiveTrue, now)];
        status := PlayerAdded(name, code);
        nameInput, codeInput := "", "";
      }
      addDisabled := false;
    }

    /**
     * A row's delete button, carrying `code`. An empty code does nothing; so
     * does a refused confirmation; otherwise the status is cleared and the
     * document is deleted, or the failure is reported and the store kept.
     */
    method Delete(code: string, confirmed: bool, fault: bool)
      modifies this`docs, this`status
      ensures docs == (if code != "" && confirmed && !fault then Remove(old(docs), code) else old(docs))
      ensures status == (if code == "" || !confirmed then old(status)
                         else if fault then DeleteFailed
                         else PlayerDeleted(code))
    {
      if code == "" {
        return;
      }
      if !confirmed {
        return;
      }
      status := Blank;
      if fault {
        status := DeleteFailed;
      } else {
        docs := docs - {code};
        status := PlayerDeleted(code);
      }
    }

    /** The snapshot listener: the table is rebuilt from scratch, one row per document, and the count shown. */
    method Render(snapshot: seq<DocSnap>)
      modifies this`rows, this`count
      ensures count == |snapshot| && |rows| == |snapshot|
      ensures forall i :: 0 <= i < |snapshot| ==> rows[i] == RowOf(snapshot[i])
    {
      rows := [];
      var n := 0;
      for i := 0 to |snapshot|
        invariant n == i && |rows| == i
        invariant forall j :: 0 <= j < i ==> rows[j] == RowOf(snapshot[j])
      {
        n := n + 1;
        rows := rows + [RowOf(snapshot[i])];
      }
      count := n;
    }

    /** The snapshot listener's error callback. */
    method SnapshotFailed()
      modifies this`status
      ensures status == LoadFailed
    {
      status := LoadFailed;
    }
  }
}
