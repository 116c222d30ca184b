/** Exporting the application state, checking an exported snapshot, and restoring it into a fresh store. */
module Snapshot {
  import opened Models
  import opened Execution
  import opened Blocks
  import opened ExternalStore
  import opened StoreRuns

  datatype Envelope = Envelope(snapshot: StateSnapshot, artifactHash: Artifact)

  datatype SnapError =
    | BadAddress | DuplicateAddress | NegativeState
    | DatabaseRefused | FinalizePending | SupplyBroken
    | WrongFormat | WrongProtocol | WrongChain | WrongFingerprint | WrongArtifact | BadHeight | BadLastHash
    | WrongCount | WrongRoot | WrongIssuedField | WrongAppHash | WrongHeight | UnexpectedAppHash
    | NotFresh | NotPristine

  const FORMAT := "crakbit-external-state-snapshot-v1"
  const PROTOCOL := "crakbit-execution/2"

  function Repeat(c: char, n: nat): (s: string)
    ensures |s| == n && forall i :: 0 <= i < n ==> s[i] == c
  {
    if n == 0 then [] else Repeat(c, n - 1) + [c]
  }

  function AppOf(g: Genesis, feePool: Address): App {
    App(RulesOf(g), feePool)
  }

  /** The tables a fresh data directory starts with. */
  function Pristine(g: Genesis): Tables {
    Tables(0, Repeat('0', 64), GenesisAccounts(g), map[], map[], map[], None)
  }

  // ---- normalised account lists ----

  predicate WellFormed(a: Address) {
    |a.text| == 44 && a.text[..4] == "crk1"
  }

  predicate Listed(entries: seq<Listing>, a: Address) {
    exists i :: 0 <= i < |entries| && entries[i].address == a
  }

  /** The first complaint `_normalized_accounts` raises, if any. */
  function Complaint(entries: seq<Listing>): Option<SnapError> {
    if entries == [] then None
    else
      var init, last := entries[..|entries| - 1], entries[|entries| - 1];
      var earlier := Complaint(init);
      if earlier.Some? then earlier
      else if !WellFormed(last.address) then Some(BadAddress)
      else if Listed(init, last.address) then Some(DuplicateAddress)
      else if last.balance < 0 || last.nonce < 0 then Some(NegativeState)
      else None
  }

  /** The table a list of entries stands for. */
  function Table(entries: seq<Listing>): Accounts {
    if entries == [] then map[]
    else
      var last := entries[|entries| - 1];
      Table(entries[..|entries| - 1])[last.address := Account(last.balance, last.nonce)]
  }

  function SumBalances(entries: seq<Listing>): int {
    if entries == [] then 0 else SumBalances(entries[..|entries| - 1]) + entries[|entries| - 1].balance
  }

  method NormalizedAccounts(entries: seq<Listing>) returns (error: Option<SnapError>)
    ensures error == Complaint(entries)
  {
    var seen: set<Address> := {};
    for i := 0 to |entries|
      invariant Complaint(entries[..i]) == None
      invariant forall a :: a in seen <==> Listed(entries[..i], a)
    {
      assert entries[..i + 1][..i] == entries[..i];
      var e := entries[i];
      error := if !WellFormed(e.address) then Some(BadAddress)
               else if e.address in seen then Some(DuplicateAddress)
               else if e.balance < 0 || e.nonce < 0 then Some(NegativeState)
               else None;
      if error.Some? {
        ComplaintStays(entries, i + 1);
        return;
      }
      seen := seen + {e.address};
      ListedSnoc(entries, i);
    }
    assert entries[..|entries|] == entries;
    error := None;
  }

  lemma ListedSnoc(entries: seq<Listing>, i: nat)
    requires i < |entries|
    ensures forall a :: Listed(entries[..i + 1], a) <==> Listed(entries[..i], a) || a == entries[i].address
  {
    forall a | Listed(entries[..i], a) || a == entries[i].address ensures Listed(entries[..i + 1], a) {
      if a == entries[i].address { assert entries[..i + 1][i].address == a; }
      else {
        var k :| 0 <= k < i && entries[..i][k].address == a;
        assert entries[..i + 1][k].address == a;
      }
    }
    forall a | Listed(entries[..i + 1], a) ensures Listed(entries[..i], a) || a == entries[i].address {
      var k :| 0 <= k < i + 1 && entries[..i + 1][k].address == a;
      if k < i { assert entries[..i][k].address == a; }
    }
  }

  lemma {:induction false} ComplaintStays(entries: seq<Listing>, n: nat)
    requires n <= |entries| && Complaint(entries[..n]).Some?
    ensures Complaint(entries) == Complaint(entries[..n])
    decreases |entries|
  {
    if n == |entries| { assert entries[..n] == entries; }
    else {
      assert entries[..|entries| - 1][..n] == entries[..n];
      ComplaintStays(entries[..|entries| - 1], n);
    }
  }

  /** The entries list the table: each address once, with its row. */
  ghost predicate Lists(entries: seq<Listing>, accounts: Accounts) {
    && (forall i, j :: 0 <= i < j < |entries| ==> entries[i].address != entries[j].address)
    && (forall a :: a in accounts <==> Listed(entries, a))
    && (forall i :: 0 <= i < |entries| ==>
          entries[i].address in accounts && accounts[entries[i].address] == Account(entries[i].balance, entries[i].nonce))
  }

  lemma ListsInit(entries: seq<Listing>, accounts: Accounts)
    requires Lists(entries, accounts) && entries != []
    ensures Lists(entries[..|entries| - 1], accounts - {entries[|entries| - 1].address})
  {
    var n := |entries| - 1;
    ListedSnoc(entries, n);
    assert entries[..n + 1] == entries;
    assert !Listed(entries[..n], entries[n].address);
  }

  /** Listing a table and reading the list back gives the table, with the same total. */
  lemma {:induction false} TableOfListing(entries: seq<Listing>, accounts: Accounts)
    requires Lists(entries, accounts)
    ensures Table(entries) == accounts && SumBalances(entries) == Total(accounts) && |entries| == |accounts|
  {
    if entries == [] {
      assert forall a :: a in accounts ==> Listed(entries, a);
      assert accounts == map[];
    } else {
      var init, last := entries[..|entries| - 1], entries[|entries| - 1];
      var rest := accounts - {last.address};
      ListsInit(entries, accounts);
      TableOfListing(init, rest);
      assert accounts[last.address] == Account(last.balance, last.nonce);
      assert accounts == rest[last.address := accounts[last.address]];
      TotalInsert(rest, last.address, accounts[last.address]);
    }
  }

  lemma TotalInsert(accounts: Accounts, a: Address, row: Account)
    requires a !in accounts
    ensures Total(accounts[a := row]) == Total(accounts) + row.balance
  {
    var after := accounts[a := row];
    SumPull(after, after.Keys, a);
    assert after.Keys - {a} == accounts.Keys;
    SumSame(accounts, after, accounts.Keys);
  }

  ghost predicate Exportable(accounts: Accounts) {
    forall a :: a in accounts ==> WellFormed(a) && accounts[a].balance >= 0 && accounts[a].nonce >= 0
  }

  predicate RowNormal(e: Listing) {
    WellFormed(e.address) && e.balance >= 0 && e.nonce >= 0
  }

  lemma ExportableNext(entries: seq<Listing>, accounts: Accounts)
    requires Lists(entries, accounts) && entries != []
    ensures var last := entries[|entries| - 1];
            && Lists(entries[..|entries| - 1], accounts - {last.address})
            && (Exportable(accounts) <==> Exportable(accounts - {last.address}) && RowNormal(last))
            && !Listed(entries[..|entries| - 1], last.address)
  {
    var n := |entries| - 1;
    ListsInit(entries, accounts);
    ListedSnoc(entries, n);
    assert entries[..n + 1] == entries;
    assert accounts[entries[n].address] == Account(entries[n].balance, entries[n].nonce);
  }

  /** A listing is normal exactly when every address is well formed and no row is negative. */
  lemma {:induction false} ListingIsNormal(entries: seq<Listing>, accounts: Accounts)
    requires Lists(entries, accounts)
    ensures Complaint(entries) == None <==> Exportable(accounts)
  {
    if entries == [] {
      assert forall a :: a in accounts ==> Listed(entries, a);
    } else {
      ExportableNext(entries, accounts);
      ListingIsNormal(entries[..|entries| - 1], accounts - {entries[|entries| - 1].address});
    }
  }

  /** The first complaint about the `i`-th entry, by itself and by those in front of it. */
  ghost function EntryFault(entries: seq<Listing>, i: nat): Option<SnapError>
    requires i < |entries|
  {
    var e := entries[i];
    if |e.address.text| != 44 || e.address.text[0] != 'c' || e.address.text[1] != 'r' || e.address.text[2] != 'k' || e.address.text[3] != '1'
    then Some(BadAddress)
    else if exists j :: 0 <= j < i && entries[j].address == e.address then Some(DuplicateAddress)
    else if e.balance < 0 || e.nonce < 0 then Some(NegativeState)
    else None
  }

  lemma EntryIs(init: seq<Listing>, last: Listing)
    ensures EntryFault(init + [last], |init|)
            == if !WellFormed(last.address) then Some(BadAddress) else if Listed(init, last.address) then Some(DuplicateAddress)
               else if last.balance < 0 || last.nonce < 0 then Some(NegativeState) else None
  {
    var all := init + [last];
    if |last.address.text| == 44 { assert last.address.text[..4] == "crk1" <==> forall k :: 0 <= k < 4 ==> last.address.text[k] == "crk1"[k]; }
    if Listed(init, last.address) {
      var i :| 0 <= i < |init| && init[i].address == last.address;
      assert all[i].address == last.address;
    }
    if exists j :: 0 <= j < |init| && all[j].address == last.address {
      var j :| 0 <= j < |init| && all[j].address == last.address;
      assert init[j].address == last.address;
    }
  }

  lemma FaultsOfPrefix(entries: seq<Listing>, n: nat, i: nat)
    requires i < n <= |entries|
    ensures EntryFault(entries[..n], i) == EntryFault(entries, i)
  {
    var init := entries[..n];
    if exists j :: 0 <= j < i && entries[j].address == entries[i].address {
      var j :| 0 <= j < i && entries[j].address == entries[i].address;
      assert init[j].address == init[i].address;
    }
  }

  /** A list of accounts draws the first complaint about its first faulty entry, if it has one. */
  lemma {:induction false} ComplaintMeans(entries: seq<Listing>)
    ensures Complaint(entries) == None <==> forall i :: 0 <= i < |entries| ==> EntryFault(entries, i) == None
    ensures Complaint(entries).Some? ==>
              exists i :: 0 <= i < |entries| && EntryFault(entries, i) == Complaint(entries) && forall j :: 0 <= j < i ==> EntryFault(entries, j) == None
  {
    if entries != [] {
      var n := |entries| - 1;
      var init, last := entries[..n], entries[n];
      ComplaintMeans(init);
      EntryIs(init, last);
      assert entries == init + [last];
      forall i | 0 <= i < n ensures EntryFault(init, i) == EntryFault(entries, i) { FaultsOfPrefix(entries, n, i); }
      if Complaint(init).Some? {
        var i :| 0 <= i < n && EntryFault(init, i) == Complaint(init) && forall j :: 0 <= j < i ==> EntryFault(init, j) == None;
        assert EntryFault(entries, i) == Complaint(entries);
      }
    }
  }

  // ---- export, verify, import ----

  /** `export_external_snapshot`; `rows` is what selecting the accounts table returned. */
  ghost function Export(g: Genesis, t: Tables, rows: seq<Listing>): Result<Envelope, SnapError> {
    if !Opens(t) then Err(DatabaseRefused)
    else if t.pending != map[] then Err(FinalizePending)
    else if SumBalances(rows) != Total(GenesisAccounts(g)) then Err(SupplyBroken)
    else if Complaint(rows).Some? then Err(Complaint(rows).value)
    else
      var snapshot := StateSnapshot(FORMAT, PROTOCOL, g.chainId, FingerprintOf(g), t.height, t.lastHash,
                               AppHash(g.chainId, t.height, t.lastHash, Table(rows)), StateRoot(Table(rows)),
                               SumBalances(rows), |rows|, rows, t.origin);
      Ok(Envelope(snapshot, ArtifactHash(snapshot)))
  }

  /** `verify_external_snapshot`: the application hash it vouches for, or the first failed check. */
  ghost function Verify(g: Genesis, envelope: Envelope, expectedHeight: Option<int>, expectedHash: Option<Hash>): Result<Hash, SnapError> {
    var s := envelope.snapshot;
    if s.format != FORMAT then Err(WrongFormat)
    else if s.protocol != PROTOCOL then Err(WrongProtocol)
    else if s.chainId != g.chainId then Err(WrongChain)
    else if s.fingerprint != FingerprintOf(g) then Err(WrongFingerprint)
    else if envelope.artifactHash != ArtifactHash(s) then Err(WrongArtifact)
    else if s.height < 0 then Err(BadHeight)
    else if !IsHex64(s.lastHash) then Err(BadLastHash)
    else if Complaint(s.entries).Some? then Err(Complaint(s.entries).value)
    else if s.count != |s.entries| then Err(WrongCount)
    else if s.accountsRoot != StateRoot(Table(s.entries)) then Err(WrongRoot)
    else if s.issued != SumBalances(s.entries) then Err(WrongIssuedField)
    else if s.issued != Total(GenesisAccounts(g)) then Err(SupplyBroken)
    else if s.appHash != AppHash(g.chainId, s.height, s.lastHash, Table(s.entries)) then Err(WrongAppHash)
    else if expectedHeight.Some? && s.height != expectedHeight.value then Err(WrongHeight)
    else if expectedHash.Some? && s.appHash != expectedHash.value then Err(UnexpectedAppHash)
    else Ok(s.appHash)
  }

  /** The base record an import of this envelope writes. */
  function OriginOf(e: Envelope): Origin {
    Origin(e.snapshot.height, e.snapshot.appHash, e.artifactHash)
  }

  /** `import_external_snapshot` into the tables `t`. */
  ghost function Import(g: Genesis, t: Tables, envelope: Envelope, expectedHeight: Option<int>, expectedHash: Option<Hash>)
    : (Tables, Result<Hash, SnapError>)
  {
    var verified := Verify(g, envelope, expectedHeight, expectedHash);
    var s := envelope.snapshot;
    if verified.Err? then (t, verified)
    else if !Opens(t) then (t, Err(DatabaseRefused))
    else if t.height != 0 then (t, Err(NotFresh))
    else if t.commits != map[] || t.pending != map[] || t.accounts != GenesisAccounts(g) then (t, Err(NotPristine))
    else (Tables(s.height, s.lastHash, Table(s.entries), map[], map[], map[], Some(OriginOf(envelope))), verified)
  }

  /** The restoring transaction: every table emptied, then the listed rows inserted one by one. */
  method ImportRows(store: ExternalExecutionStore, e: Envelope)
    modifies store
    ensures var s := e.snapshot;
            store.State() == Tables(s.height, s.lastHash, Table(s.entries), map[], map[], map[], Some(OriginOf(e)))
  {
    var s := e.snapshot;
    store.accounts, store.txHeights, store.commits, store.pending := map[], map[], map[], map[];
    for i := 0 to |s.entries|
      invariant store.accounts == Table(s.entries[..i])
      invariant store.txHeights == map[] && store.commits == map[] && store.pending == map[]
    {
      assert s.entries[..i + 1][..i] == s.entries[..i];
      store.accounts := store.accounts[s.entries[i].address := Account(s.entries[i].balance, s.entries[i].nonce)];
    }
    assert s.entries[..|s.entries|] == s.entries;
    store.height, store.lastHash := s.height, s.lastHash;
    store.origin := Some(OriginOf(e));
  }

  method VerifySnapshot(g: Genesis, envelope: Envelope, expectedHeight: Option<int>, expectedHash: Option<Hash>)
    returns (r: Result<Hash, SnapError>)
    ensures r == Verify(g, envelope, expectedHeight, expectedHash)
  {
    var s := envelope.snapshot;
    if s.format != FORMAT { return Err(WrongFormat); }
    if s.protocol != PROTOCOL { return Err(WrongProtocol); }
    if s.chainId != g.chainId { return Err(WrongChain); }
    if s.fingerprint != FingerprintOf(g) { return Err(WrongFingerprint); }
    if envelope.artifactHash != ArtifactHash(s) { return Err(WrongArtifact); }
    if s.height < 0 { return Err(BadHeight); }
    if !IsHex64(s.lastHash) { return Err(BadLastHash); }
    var error := NormalizedAccounts(s.entries);
    if error.Some? { return Err(error.value); }
    if s.count != |s.entries| { return Err(WrongCount); }
    if s.accountsRoot != StateRoot(Table(s.entries)) { return Err(WrongRoot); }
    if s.issued != SumBalances(s.entries) { return Err(WrongIssuedField); }
    var supply := SumTotal(GenesisAccounts(g));
    if s.issued != supply { return Err(SupplyBroken); }
    if s.appHash != AppHash(g.chainId, s.height, s.lastHash, Table(s.entries)) { return Err(WrongAppHash); }
    if expectedHeight.Some? && s.height != expectedHeight.value { return Err(WrongHeight); }
    if expectedHash.Some? && s.appHash != expectedHash.value { return Err(UnexpectedAppHash); }
    r := Ok(s.appHash);
  }

  method ImportSnapshot(store: ExternalExecutionStore, g: Genesis, envelope: Envelope, expectedHeight: Option<int>, expectedHash: Option<Hash>)
    returns (r: Result<Hash, SnapError>)
    modifies store
    ensures (store.State(), r) == Import(g, old(store.State()), envelope, expectedHeight, expectedHash)
  {
    r := VerifySnapshot(g, envelope, expectedHeight, expectedHash);
    if r.Err? { return; }
    var opens := store.CheckBase();
    if !opens { return Err(DatabaseRefused); }
    if store.height != 0 { return Err(NotFresh); }
    if store.commits != map[] || store.pending != map[] || store.accounts != GenesisAccounts(g) { return Err(NotPristine); }
    ImportRows(store, envelope);
  }

  /** Given a source whose supply is intact, export succeeds exactly when nothing is pending and
      every account is well formed and not negative. */
  lemma ExportSucceedsIff(g: Genesis, t: Tables, rows: seq<Listing>)
    requires Opens(t) && Lists(rows, t.accounts) && Total(t.accounts) == Total(GenesisAccounts(g))
    ensures Export(g, t, rows).Ok? <==> t.pending == map[] && Exportable(t.accounts)
  {
    TableOfListing(rows, t.accounts);
    ListingIsNormal(rows, t.accounts);
  }

  /** A store in the state the snapshot describes, restored from it. */
  ghost function Described(e: Envelope): Tables {
    Tables(e.snapshot.height, e.snapshot.lastHash, Table(e.snapshot.entries), map[], map[], map[], Some(OriginOf(e)))
  }

  /** A snapshot is accepted exactly if it is what a store in the state it describes exports, up to the base
      record of the exporter, with the hash of its own content, a height that is not negative and a
      hexadecimal block hash; and only for the height and application hash expected. */
  lemma VerifiesIff(g: Genesis, e: Envelope, expectedHeight: Option<int>, expectedHash: Option<Hash>)
    ensures Verify(g, e, expectedHeight, expectedHash).Ok?
            <==> && e.snapshot.height >= 0 && IsHex64(e.snapshot.lastHash) && e.artifactHash == ArtifactHash(e.snapshot)
                 && Export(g, Described(e), e.snapshot.entries).Ok?
                 && Export(g, Described(e), e.snapshot.entries).value.snapshot == e.snapshot.(sourceBase := Some(OriginOf(e)))
                 && (expectedHeight.Some? ==> e.snapshot.height == expectedHeight.value)
                 && (expectedHash.Some? ==> e.snapshot.appHash == expectedHash.value)
  {
    var s := e.snapshot;
    if Complaint(s.entries) == None {
      NormalLists(s.entries);
      assert Table(s.entries) == Described(e).accounts;
    }
  }

  /** An import succeeds exactly for an accepted snapshot and a database that opens, has no block, row or
      pending request, and holds the genesis accounts. It then holds what the snapshot describes. */
  lemma ImportIff(g: Genesis, t: Tables, e: Envelope, expectedHeight: Option<int>, expectedHash: Option<Hash>)
    ensures var (u, r) := Import(g, t, e, expectedHeight, expectedHash);
            && (r.Ok? <==> && Verify(g, e, expectedHeight, expectedHash).Ok? && t.base == 0 && t.height == 0 && |t.commits| == 0 && |t.pending| == 0
                           && (forall a :: a in t.accounts <==> a in g.allocations)
                           && (forall a :: a in t.accounts ==> t.accounts[a] == Account(g.allocations[a], 0)))
            && u == if r.Ok? then Described(e) else t
  {
    if t.accounts != GenesisAccounts(g) && t.accounts.Keys == g.allocations.Keys {
      var a :| a in t.accounts && t.accounts[a] != Account(g.allocations[a], 0);
    }
  }

  /** What verification vouches for: any accepted snapshot holds exactly the genesis supply in
      well-formed, non-negative accounts, and its application hash is that of its contents. */
  lemma VerifiedMeansSound(g: Genesis, envelope: Envelope, expectedHeight: Option<int>, expectedHash: Option<Hash>)
    requires Verify(g, envelope, expectedHeight, expectedHash).Ok?
    ensures var s := envelope.snapshot;
            && Lists(s.entries, Table(s.entries)) && Exportable(Table(s.entries))
            && Total(Table(s.entries)) == Total(GenesisAccounts(g))
            && Verify(g, envelope, expectedHeight, expectedHash).value == AppHash(g.chainId, s.height, s.lastHash, Table(s.entries))
  {
    var s := envelope.snapshot;
    NormalLists(s.entries);
    TableOfListing(s.entries, Table(s.entries));
    ListingIsNormal(s.entries, Table(s.entries));
  }

  lemma {:induction false} NormalLists(entries: seq<Listing>)
    requires Complaint(entries) == None
    ensures Lists(entries, Table(entries))
  {
    if entries != [] {
      var n := |entries| - 1;
      NormalLists(entries[..n]);
      ListedSnoc(entries, n);
      assert entries[..n + 1] == entries;
      forall i | 0 <= i < n ensures entries[i].address != entries[n].address {
        assert entries[..n][i] == entries[i];
      }
      forall i | 0 <= i < |entries|
        ensures entries[i].address in Table(entries)
                && Table(entries)[entries[i].address] == Account(entries[i].balance, entries[i].nonce)
      {
        if i < n { assert entries[..n][i] == entries[i]; }
      }
      forall i, j | 0 <= i < j < |entries| ensures entries[i].address != entries[j].address {
        if j < n { assert entries[..n][i] == entries[i] && entries[..n][j] == entries[j]; }
      }
    }
  }

  /** Two accepted snapshots with one application hash restore the same tables, but for the artifact
      hash in the base record; that one is equal exactly for equal snapshots. */
  lemma AppHashBindsRestore(g: Genesis, one: Envelope, other: Envelope)
    requires Verify(g, one, None, None).Ok? && Verify(g, one, None, None) == Verify(g, other, None, None)
    ensures Import(g, Pristine(g), one, None, None).1.Ok?
    ensures Import(g, Pristine(g), one, None, None).1 == Import(g, Pristine(g), other, None, None).1
    ensures var t, u := Import(g, Pristine(g), one, None, None).0, Import(g, Pristine(g), other, None, None).0;
            && t.(origin := None) == u.(origin := None) && t.base == u.base
            && (t == u <==> one == other)
  {
  }
}
