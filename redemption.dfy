/**
 * The voucher redemption engine: the code table, the ledger of burned codes
 * persisted under one key of a key-value store, and the verification workflow
 * split into the click that schedules it and the timer continuation that
 * resolves it.
 */
module Redemption {
  import opened Types
  import opened Text

  /** The store key under which the ledger is persisted. */
  const StorageKey: string := "kapten_lycel_used_codes"

  /** The store as the engine sees it: each key holds a list of codes. */
  type Store = map<string, seq<string>>

  /** The table in use when the code table could not be loaded. */
  function LoadTable(fetched: Option<seq<WifiCodeRecord>>): (t: seq<WifiCodeRecord>)
    ensures fetched.Some? ==> t == fetched.value
    ensures fetched.None? ==> t == [WifiCodeRecord("123456", "SAMPLE")]
  {
    match fetched
    case Some(rows) => rows
    case None => [WifiCodeRecord("123456", "SAMPLE")]
  }

  /** The ledger read back from the store: empty when the key is absent. */
  function LoadLedger(store: Store): (l: seq<string>)
    ensures StorageKey !in store ==> l == []
    ensures StorageKey in store ==> l == store[StorageKey]
  {
    if StorageKey in store then store[StorageKey] else []
  }

  /** Writes the whole ledger under the storage key, replacing what was there. */
  function Persist(store: Store, ledger: seq<string>): (s: Store)
    ensures LoadLedger(s) == ledger
    ensures forall k :: k != StorageKey ==> (k in s <==> k in store)
    ensures forall k :: k != StorageKey && k in s ==> s[k] == store[k]
  {
    store[StorageKey := ledger]
  }

  /** Removes the storage key. */
  function Erase(store: Store): (s: Store)
    ensures LoadLedger(s) == [] && StorageKey !in s
    ensures forall k :: k != StorageKey ==> (k in s <==> k in store)
    ensures forall k :: k != StorageKey && k in s ==> s[k] == store[k]
  {
    store - {StorageKey}
  }

  predicate Distinct(codes: seq<string>) {
    forall i, j :: 0 <= i < j < |codes| ==> codes[i] != codes[j]
  }

  /** A row matches a normalised code when its upper-cased input code equals it (no trim on the row). */
  predicate Matches(row: WifiCodeRecord, code: string)
    ensures Matches(row, code) ==> |code| == |row.inputCode|
    ensures Matches(row, code) ==> forall i :: 0 <= i < |code| ==> !IsLower(code[i])
  {
    Upper(row.inputCode) == code
  }

  /**
   * Matching ignores ASCII case on both sides: typed input matches a row exactly
   * when, once trimmed, it spells the row's input code up to case.
   */
  lemma MatchesIgnoringCase(row: WifiCodeRecord, typed: string)
    ensures Matches(row, Normalize(typed))
        <==> var t := Trim(typed);
             |t| == |row.inputCode| && forall i :: 0 <= i < |t| ==> SameIgnoringCase(row.inputCode[i], t[i])
  {
    UpperEqual(row.inputCode, Trim(typed));
  }

  /** Row `j` is the first row of `table` that matches `code`. */
  predicate FirstMatch(table: seq<WifiCodeRecord>, code: string, j: int) {
    0 <= j < |table| && Matches(table[j], code)
    && forall i :: 0 <= i < j ==> !Matches(table[i], code)
  }

  /** The index of the first matching row, as a linear scan finds it. */
  function FindIndex(table: seq<WifiCodeRecord>, code: string): (r: Option<nat>)
    ensures r.Some? ==> FirstMatch(table, code, r.value)
    ensures r.None? ==> forall j :: 0 <= j < |table| ==> !Matches(table[j], code)
  {
    if table == [] then None
    else if Matches(table[0], code) then Some(0)
    else match FindIndex(table[1..], code)
      case None => None
      case Some(k) => Some(k + 1)
  }

  /** How a continuation resolves a normalised code. */
  datatype Verdict = Burned | Granted(outputCode: string) | NoMatch

  /** The ledger is consulted first; the table only for codes not yet burned. */
  function Resolve(used: seq<string>, table: seq<WifiCodeRecord>, code: string): (v: Verdict)
    ensures v == Burned <==> code in used
    ensures v == NoMatch <==> code !in used && forall j :: 0 <= j < |table| ==> !Matches(table[j], code)
    ensures v.Granted? ==> exists j :: FirstMatch(table, code, j) && v.outputCode == table[j].outputCode
  {
    if code in used then Burned
    else match FindIndex(table, code)
      case Some(j) => Granted(table[j].outputCode)
      case None => NoMatch
  }

  /** The ledger after a continuation for `code` resolves against `used`. */
  function LedgerAfter(used: seq<string>, table: seq<WifiCodeRecord>, code: string): (l: seq<string>)
    ensures used <= l && |l| <= |used| + 1
    ensures l != used <==> Resolve(used, table, code).Granted?
    ensures l != used ==> l[|used|] == code
    ensures Distinct(used) ==> Distinct(l)
  {
    if Resolve(used, table, code).Granted? then used + [code] else used
  }

  /** A code that was just granted is burned: a second attempt is rejected. */
  lemma GrantedThenBurned(used: seq<string>, table: seq<WifiCodeRecord>, code: string)
    requires Resolve(used, table, code).Granted?
    ensures Resolve(LedgerAfter(used, table, code), table, code) == Burned
  {
  }

  /** Two matching rows: the earlier one decides the revealed code. */
  lemma FirstRowWins(used: seq<string>, table: seq<WifiCodeRecord>, code: string, j: nat)
    requires code !in used && FirstMatch(table, code, j)
    ensures Resolve(used, table, code) == Granted(table[j].outputCode)
  {
    var v := Resolve(used, table, code);
    var k :| FirstMatch(table, code, k) && v.outputCode == table[k].outputCode;
    assert !(k < j) && !(j < k);
  }

  /**
   * Once the ledger is cleared, a code is resolved exactly as against any
   * ledger that never held it.
   */
  lemma ClearedCodeIsFresh(other: seq<string>, table: seq<WifiCodeRecord>, code: string)
    requires code !in other
    ensures Resolve([], table, code) == Resolve(other, table, code)
  {
  }

  /** After a clear, the ledger never holds more than the code just redeemed. */
  lemma ClearedLedgerStaysCleared(table: seq<WifiCodeRecord>, code: string)
    ensures forall c :: c in LedgerAfter([], table, code) ==> c == code
  {
  }

  /**
   * The source's continuation works on the ledger captured when it was
   * scheduled (`snapshot`) and writes `snapshot + [code]` over whatever the
   * ledger (`current`) has become meanwhile.
   */
  function StaleLedgerAfter(snapshot: seq<string>, current: seq<string>, table: seq<WifiCodeRecord>, code: string): (l: seq<string>)
    ensures Resolve(snapshot, table, code).Granted? ==> l == LedgerAfter(snapshot, table, code)
    ensures !Resolve(snapshot, table, code).Granted? ==> l == current
  {
    if Resolve(snapshot, table, code).Granted? then snapshot + [code] else current
  }

  /** Clearing the history while a verification is pending is undone by its continuation. */
  lemma StaleLedgerResurrectsCleared()
    ensures StaleLedgerAfter(["111111"], [], [WifiCodeRecord("123456", "SAMPLE")], "123456") == ["111111", "123456"]
    ensures LedgerAfter([], [WifiCodeRecord("123456", "SAMPLE")], "123456") == ["123456"]
  {
    var table := [WifiCodeRecord("123456", "SAMPLE")];
    assert Upper("123456") == "123456";
    assert Matches(table[0], "123456");
  }

  /** The state of the redemption portal. */
  class Portal {
    var input: string
    var result: Option<string>
    var status: Status
    var loading: bool
    /** Burned codes, oldest first. */
    var usedCodes: seq<string>
    var table: seq<WifiCodeRecord>
    var store: Store
    /** Trimmed inputs of scheduled continuations that have not fired yet, oldest first. */
    var pending: seq<string>

    /** The store always reloads to the in-memory ledger, and a validating portal has a continuation pending. */
    ghost predicate Valid()
      reads this
    {
      LoadLedger(store) == usedCodes && (loading ==> pending != [])
    }

    /** Start-up: the table (or the fallback) and the persisted ledger are loaded. */
    constructor (fetched: Option<seq<WifiCodeRecord>>, storage: Store)
      ensures Valid()
      ensures table == LoadTable(fetched) && store == storage && usedCodes == LoadLedger(storage)
      ensures input == [] && result == None && status == Idle && !loading && pending == []
    {
      input := [];
      result := None;
      status := Idle;
      loading := false;
      table := LoadTable(fetched);
      store := storage;
      usedCodes := LoadLedger(storage);
      pending := [];
    }

    /** Typing in the field replaces the input and clears the shown status. */
    method EditInput(text: string)
      requires Valid()
      modifies this`input, this`status
      ensures Valid()
      ensures input == text && status == Idle
    {
      input := text;
      status := Idle;
    }

    /**
     * The click: input that trims to nothing, or a portal that is already
     * validating, is ignored; otherwise the portal starts validating and
     * schedules a continuation for the trimmed input.
     */
    method BeginVerify() returns (started: bool)
      requires Valid()
      modifies this`loading, this`pending
      ensures Valid()
      ensures started <==> Trim(input) != [] && !old(loading)
      ensures started ==> loading && pending == old(pending) + [Trim(input)]
      ensures !started ==> loading == old(loading) && pending == old(pending)
    {
      var raw := Trim(input);
      if raw == [] || loading {
        return false;
      }
      loading := true;
      pending := pending + [raw];
      started := true;
    }

    /** The continuation fires: the oldest pending input is normalised and resolved. */
    method CompleteVerify() returns (code: string)
      requires Valid() && pending != []
      modifies this`pending, this`loading, this`status, this`result, this`usedCodes, this`store
      ensures Valid()
      ensures code == Upper(old(pending)[0]) && pending == old(pending)[1..] && !loading
      ensures usedCodes == LedgerAfter(old(usedCodes), table, code)
      ensures match Resolve(old(usedCodes), table, code)
        case Burned => status == AlreadyUsed && result == None && store == old(store)
        case Granted(out) => status == Success && result == Some(out) && store == Persist(old(store), usedCodes)
        case NoMatch => status == Invalid && result == None && store == old(store)
    {
      code := Upper(pending[0]);
      pending := pending[1..];
      if code in usedCodes {
        status, result, loading := AlreadyUsed, None, false;
        return;
      }
      var found := FindIndex(table, code);
      match found {
        case Some(j) =>
          var newUsedCodes := usedCodes + [code];
          usedCodes := newUsedCodes;
          store := Persist(store, newUsedCodes);
          status, result, loading := Success, Some(table[j].outputCode), false;
        case None =>
          status, result, loading := Invalid, None, false;
      }
    }

    /** Clear history, once the user has confirmed: the ledger and its persisted copy both go. */
    method ClearHistory()
      requires Valid()
      modifies this`usedCodes, this`store
      ensures Valid()
      ensures usedCodes == [] && store == Erase(old(store))
    {
      usedCodes := [];
      store := Erase(store);
    }

    /** "Enter new session": the session is discarded and the ledger kept. */
    method Reset()
      requires Valid()
      modifies this`input, this`result, this`status, this`loading
      ensures Valid()
      ensures input == [] && result == None && status == Idle && !loading
    {
      input, result, status, loading := [], None, Idle, false;
    }
  }

  /** Digits normalise to themselves. */
  lemma NormalizeDigits(s: string)
    requires forall i :: 0 <= i < |s| ==> '0' <= s[i] <= '9'
    ensures Trim(s) == s && Upper(s) == s
  {
    TrimOfTrimmed(s);
    assert forall i :: 0 <= i < |s| ==> !IsLower(s[i]);
  }

  /** The sample code is granted against an empty ledger. */
  lemma SampleGranted()
    ensures Resolve([], LoadTable(None), "123456") == Granted("SAMPLE")
  {
    var table := LoadTable(None);
    SampleCodeNormal();
    assert Matches(table[0], "123456");
    assert FindIndex(table, "123456") == Some(0);
  }

  /** Any other code finds no row in the fallback table. */
  lemma SampleNoMatch(used: seq<string>, code: string)
    requires code !in used && code != "123456"
    ensures Resolve(used, LoadTable(None), code) == NoMatch
  {
    var table := LoadTable(None);
    SampleCodeNormal();
    assert !Matches(table[0], code);
    assert FindIndex(table, code) == None;
  }

  /**
   * One whole attempt on an idle portal: the user types `text`, clicks, and
   * the continuation fires.
   */
  method Attempt(portal: Portal, text: string) returns (code: string)
    requires portal.Valid() && !portal.loading && portal.pending == [] && Trim(text) != []
    modifies portal
    ensures portal.Valid() && !portal.loading && portal.pending == []
    ensures code == Normalize(text) && portal.input == text && portal.table == old(portal.table)
    ensures portal.usedCodes == LedgerAfter(old(portal.usedCodes), portal.table, code)
    ensures match Resolve(old(portal.usedCodes), portal.table, code)
      case Burned => portal.status == AlreadyUsed && portal.result == None
      case Granted(out) => portal.status == Success && portal.result == Some(out)
      case NoMatch => portal.status == Invalid && portal.result == None
  {
    ghost var used, table := portal.usedCodes, portal.table;
    portal.EditInput(text);
    var started := portal.BeginVerify();
    assert started && portal.pending == [Trim(text)];
    assert portal.usedCodes == used && portal.table == table;
    code := portal.CompleteVerify();
    assert code == Normalize(text);
  }

  /** A code that resolves to a row is granted, and only it joins the ledger. */
  method Redeem(portal: Portal, text: string) returns (status: Status, revealed: Option<string>)
    requires portal.Valid() && !portal.loading && portal.pending == [] && Trim(text) != []
    requires Resolve(portal.usedCodes, portal.table, Normalize(text)).Granted?
    modifies portal
    ensures portal.Valid() && !portal.loading && portal.pending == []
    ensures portal.table == old(portal.table) && portal.usedCodes == old(portal.usedCodes) + [Normalize(text)]
    ensures status == Success && revealed == Some(Resolve(old(portal.usedCodes), portal.table, Normalize(text)).outputCode)
  {
    var code := Attempt(portal, text);
    status, revealed := portal.status, portal.result;
  }

  /** Retyping a burned code is rejected and leaves the ledger as it was. */
  method Replay(portal: Portal, text: string) returns (status: Status)
    requires portal.Valid() && !portal.loading && portal.pending == [] && Trim(text) != []
    requires Normalize(text) in portal.usedCodes
    modifies portal
    ensures portal.Valid() && !portal.loading && portal.pending == []
    ensures portal.table == old(portal.table) && portal.usedCodes == old(portal.usedCodes)
    ensures status == AlreadyUsed && portal.result == None
  {
    var code := Attempt(portal, text);
    status := portal.status;
  }

  /** A fresh code that matches no row is invalid and leaves the ledger as it was. */
  method Mistype(portal: Portal, text: string) returns (status: Status)
    requires portal.Valid() && !portal.loading && portal.pending == [] && Trim(text) != []
    requires Resolve(portal.usedCodes, portal.table, Normalize(text)) == NoMatch
    modifies portal
    ensures portal.Valid() && !portal.loading && portal.pending == []
    ensures portal.table == old(portal.table) && portal.usedCodes == old(portal.usedCodes)
    ensures status == Invalid && portal.result == None
  {
    var code := Attempt(portal, text);
    status := portal.status;
  }

  /** The sample code typed as it is normalises to itself. */
  lemma SampleCodeNormal()
    ensures Trim("123456") == "123456" && Upper("123456") == "123456" && Normalize("123456") == "123456"
  {
    NormalizeDigits("123456");
  }

  /** "999999" typed as it is normalises to itself. */
  lemma OtherCodeNormal()
    ensures Trim("999999") == "999999" && Normalize("999999") == "999999"
  {
    NormalizeDigits("999999");
  }

  /** Once only the sample code is burned, "999999" still finds nothing. */
  lemma OtherCodeRejected()
    ensures Resolve(["123456"], LoadTable(None), "999999") == NoMatch
  {
    assert "999999"[0] != "123456"[0];
    assert "999999" !in ["123456"];
    SampleNoMatch(["123456"], "999999");
  }

  /**
   * With the fallback table and an empty store: "123456" is granted "SAMPLE",
   * the same code a second time is already used, and "999999" is invalid.
   */
  method SampleSession() returns (first: Status, revealed: Option<string>, second: Status, third: Status)
    ensures first == Success && revealed == Some("SAMPLE")
    ensures second == AlreadyUsed && third == Invalid
  {
    var portal := new Portal(None, map[]);
    first, revealed := SampleFirstRound(portal);
    portal.Reset();
    second, third := SampleLaterRounds(portal);
  }

  /** First round of the sample session: the sample code is granted and burned. */
  method SampleFirstRound(portal: Portal) returns (first: Status, revealed: Option<string>)
    requires portal.Valid() && !portal.loading && portal.pending == []
    requires portal.table == LoadTable(None) && portal.usedCodes == []
    modifies portal
    ensures portal.Valid() && portal.pending == []
    ensures portal.table == LoadTable(None) && portal.usedCodes == ["123456"]
    ensures first == Success && revealed == Some("SAMPLE")
  {
    SampleCodeNormal();
    SampleGranted();
    first, revealed := Redeem(portal, "123456");
  }

  /** Later rounds of the sample session: the burned code, then an unknown one. */
  method SampleLaterRounds(portal: Portal) returns (second: Status, third: Status)
    requires portal.Valid() && !portal.loading && portal.pending == []
    requires portal.table == LoadTable(None) && portal.usedCodes == ["123456"]
    modifies portal
    ensures second == AlreadyUsed && third == Invalid
  {
    SampleCodeNormal();
    OtherCodeNormal();
    OtherCodeRejected();
    second := Replay(portal, "123456");
    third := Mistype(portal, "999999");
  }
}
