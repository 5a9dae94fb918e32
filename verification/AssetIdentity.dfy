/** Which asset a telemetry report belongs to: by certificate, by hostname, or a new one numbered arx-c-N. */
module AssetIdentity {
  import opened Text
  import opened Json
  import opened Decimal

  /** The identity columns of a row of assets; hostname and certificate serial may be NULL. */
  datatype Asset = Asset(humanId: string, hostname: Option<string>, cert: Option<string>)

  /** Rows are never deleted; the position of a row stands for its UUID. */
  type Table = seq<Asset>

  datatype Report = Report(serial: string, hostname: string)

  datatype Outcome =
    | Stored(asset: nat, humanId: string)
    | MissingHostname
    | MissingSerial
    | HostnameTaken      // the unique index on hostname refuses the update
    | NumberOverflow     // the largest number does not leave room for another bigint

  const PREFIX := "arx-c-"
  const BIGINT_MAX := 0x7FFF_FFFF_FFFF_FFFF

  /** human_id ~ '^arx-c-[0-9]+$' */
  predicate IsNumbered(h: string) { |h| > 6 && h[..6] == PREFIX && AllDigits(h[6..]) }

  function Number(h: string): nat
    requires IsNumbered(h)
  {
    Parse(h[6..])
  }

  /** COALESCE(MAX(...), 0) */
  function MaxNumber(t: Table): nat {
    if t == [] then 0
    else
      var m := MaxNumber(t[..|t| - 1]);
      var h := t[|t| - 1].humanId;
      if IsNumbered(h) && Number(h) > m then Number(h) else m
  }

  function FindCert(t: Table, serial: string): (r: Option<nat>)
    ensures r.Some? ==> r.value < |t| && t[r.value].cert == Some(serial)
    ensures r.None? ==> forall i | 0 <= i < |t| :: t[i].cert != Some(serial)
  {
    if t == [] then None
    else if t[|t| - 1].cert == Some(serial) then Some(|t| - 1)
    else FindCert(t[..|t| - 1], serial)
  }

  function FindHost(t: Table, hostname: string): (r: Option<nat>)
    ensures r.Some? ==> r.value < |t| && t[r.value].hostname == Some(hostname)
    ensures r.None? ==> forall i | 0 <= i < |t| :: t[i].hostname != Some(hostname)
  {
    if t == [] then None
    else if t[|t| - 1].hostname == Some(hostname) then Some(|t| - 1)
    else FindHost(t[..|t| - 1], hostname)
  }

  function Found(t: Table, serial: string, hostname: string): Option<nat> {
    if FindCert(t, serial).Some? then FindCert(t, serial) else FindHost(t, hostname)
  }

  /** The row that gets a report, with its new certificate and hostname. */
  function Stamp(a: Asset, serial: string, hostname: string): Asset {
    a.(hostname := Some(hostname), cert := Some(serial))
  }

  /** One report, as one transaction under the advisory lock. */
  function Upsert(t: Table, r: Report): (Table, Outcome) {
    var hostname, serial := TrimSpace(r.hostname), TrimSpace(r.serial);
    if hostname == "" then (t, MissingHostname)
    else if serial == "" then (t, MissingSerial)
    else
      match Found(t, serial, hostname)
      case Some(i) =>
        if exists j :: 0 <= j < |t| && j != i && t[j].hostname == Some(hostname) then (t, HostnameTaken)
        else (t[i := Stamp(t[i], serial, hostname)], Stored(i, t[i].humanId))
      case None =>
        if MaxNumber(t) >= BIGINT_MAX then (t, NumberOverflow)
        else
          var h := PREFIX + Print(MaxNumber(t) + 1);
          (t + [Asset(h, Some(hostname), Some(serial))], Stored(|t|, h))
  }

  function Play(t: Table, run: seq<Report>): Table {
    if run == [] then t else Upsert(Play(t, run[..|run| - 1]), run[|run| - 1]).0
  }

  /** The unique constraint on human_id and the two partial unique indexes. */
  predicate Valid(t: Table) {
    && (forall i, j | 0 <= i < j < |t| :: t[i].humanId != t[j].humanId)
    && (forall i, j | 0 <= i < j < |t| && t[i].hostname.Some? && t[i].hostname != Some("") ::
          t[i].hostname != t[j].hostname)
    && (forall i, j | 0 <= i < j < |t| && t[i].cert.Some? && t[i].cert != Some("") :: t[i].cert != t[j].cert)
  }

  // ---------------------------------------------------------------- numbers

  lemma {:induction false} MaxNumberBounds(t: Table, i: nat)
    requires i < |t| && IsNumbered(t[i].humanId)
    ensures Number(t[i].humanId) <= MaxNumber(t)
  {
    if i < |t| - 1 { MaxNumberBounds(t[..|t| - 1], i); }
  }

  /** The printed number reads back as itself, so the new id is numbered one above every other. */
  lemma {:induction false} NewIdIsAboveAll(t: Table, i: nat)
    requires i < |t|
    ensures var h := PREFIX + Print(MaxNumber(t) + 1);
      IsNumbered(h) && Number(h) == MaxNumber(t) + 1 && t[i].humanId != h
      && (IsNumbered(t[i].humanId) ==> Number(t[i].humanId) < Number(h))
  {
    NewIdIsNumbered(MaxNumber(t) + 1);
    if IsNumbered(t[i].humanId) { MaxNumberBounds(t, i); }
  }

  lemma {:induction false} NewIdIsNumbered(n: nat)
    ensures IsNumbered(PREFIX + Print(n)) && Number(PREFIX + Print(n)) == n
  {
    var h := PREFIX + Print(n);
    assert h[..6] == PREFIX && h[6..] == Print(n);
    ParsePrint(n);
  }

  // ---------------------------------------------------------------- one report

  /** The unique constraints survive every report, so the insert is never refused. */
  lemma {:induction false} UpsertKeepsValid(t: Table, r: Report)
    requires Valid(t)
    ensures Valid(Upsert(t, r).0)
  {
    if Found(t, TrimSpace(r.serial), TrimSpace(r.hostname)).None? {
      forall i | 0 <= i < |t| ensures t[i].humanId != PREFIX + Print(MaxNumber(t) + 1) { NewIdIsAboveAll(t, i); }
    }
  }

  /** A stored report's certificate and hostname name that asset and no other; nothing else changed. */
  lemma {:induction false} StoredIsTheOnlyOne(t: Table, r: Report, i: nat)
    requires Valid(t) && Upsert(t, r).1.Stored?
    requires i < |Upsert(t, r).0|
    ensures var u, a := Upsert(t, r).0, Upsert(t, r).1.asset;
      a < |u| && u[a].humanId == Upsert(t, r).1.humanId
      && (u[i].cert == Some(TrimSpace(r.serial)) <==> i == a)
      && (u[i].hostname == Some(TrimSpace(r.hostname)) <==> i == a)
      && (i != a ==> i < |t| && u[i] == t[i])
  {
    UpsertKeepsValid(t, r);
    var u, a := Upsert(t, r).0, Upsert(t, r).1.asset;
    assert u[a].cert == Some(TrimSpace(r.serial)) && u[a].hostname == Some(TrimSpace(r.hostname));
    assert TrimSpace(r.serial) != "" && TrimSpace(r.hostname) != "";
    assert i != a ==> u[i].cert != u[a].cert && u[i].hostname != u[a].hostname;
  }

  /** A report fails for its hostname exactly when its certificate is known on one asset and the hostname is that of
      another; and for its number exactly when both are unknown and the numbers are used up. */
  lemma {:induction false} WhenReportsFail(t: Table, r: Report)
    requires Valid(t) && TrimSpace(r.serial) != "" && TrimSpace(r.hostname) != ""
    ensures var hostname, serial := TrimSpace(r.hostname), TrimSpace(r.serial);
      (Upsert(t, r).1.HostnameTaken? <==>
         FindCert(t, serial).Some? && FindHost(t, hostname).Some? && FindCert(t, serial) != FindHost(t, hostname))
      && (Upsert(t, r).1.NumberOverflow? <==>
         FindCert(t, serial).None? && FindHost(t, hostname).None? && MaxNumber(t) >= BIGINT_MAX)
      && (!Upsert(t, r).1.Stored? ==> Upsert(t, r).0 == t)
  {
    var hostname, serial := TrimSpace(r.hostname), TrimSpace(r.serial);
    var f := Found(t, serial, hostname);
    if f.Some? {
      if j: nat :| j < |t| && j != f.value && t[j].hostname == Some(hostname) {
        assert FindHost(t, hostname).Some?;
        assert FindHost(t, hostname).value == j by { OneHost(t, FindHost(t, hostname).value, j); }
      }
    }
  }

  lemma {:induction false} OneHost(t: Table, i: nat, j: nat)
    requires Valid(t) && i < |t| && j < |t|
    requires t[i].hostname == t[j].hostname && t[i].hostname.Some? && t[i].hostname != Some("")
    ensures i == j
  {
  }

  /** An unknown certificate that reports a known hostname. */
  predicate TakesOver(t: Table, r: Report, i: nat) {
    TrimSpace(r.serial) != "" && TrimSpace(r.hostname) != ""
    && FindCert(t, TrimSpace(r.serial)).None? && FindHost(t, TrimSpace(r.hostname)) == Some(i)
  }

  /** The certificate of an asset changes exactly when an unknown one takes the asset over by its hostname. */
  lemma {:induction false} CertificateChangesByTakeover(t: Table, r: Report, i: nat)
    requires Valid(t) && i < |t|
    ensures i < |Upsert(t, r).0|
    ensures Upsert(t, r).0[i].cert != t[i].cert <==> TakesOver(t, r, i)
  {
    var hostname, serial := TrimSpace(r.hostname), TrimSpace(r.serial);
    if TakesOver(t, r, i) {
      forall j | 0 <= j < |t| && j != i ensures t[j].hostname != Some(hostname) {
        if t[j].hostname == Some(hostname) { OneHost(t, i, j); }
      }
    } else if FindCert(t, serial) == Some(i) {
      assert t[i].cert == Some(serial);
    }
  }

  // ---------------------------------------------------------------- every run

  lemma {:induction false} RunKeepsValid(t: Table, run: seq<Report>)
    requires Valid(t)
    ensures Valid(Play(t, run))
  {
    if run != [] {
      RunKeepsValid(t, run[..|run| - 1]);
      UpsertKeepsValid(Play(t, run[..|run| - 1]), run[|run| - 1]);
    }
  }

  lemma {:induction false} UpsertKeepsHumanIds(t: Table, r: Report)
    ensures |t| <= |Upsert(t, r).0| <= |t| + 1
    ensures forall i | 0 <= i < |t| :: Upsert(t, r).0[i].humanId == t[i].humanId
    ensures |Upsert(t, r).0| == |t| + 1 ==> Upsert(t, r).0[|t|].humanId == PREFIX + Print(MaxNumber(t) + 1)
  {
  }

  /** An asset's human id never changes. */
  lemma {:induction false} HumanIdNeverChanges(t: Table, run: seq<Report>, i: nat)
    requires i < |t|
    ensures i < |Play(t, run)| && Play(t, run)[i].humanId == t[i].humanId
  {
    if run != [] {
      HumanIdNeverChanges(t, run[..|run| - 1], i);
      UpsertKeepsHumanIds(Play(t, run[..|run| - 1]), run[|run| - 1]);
    }
  }

  /** Every asset a run adds is numbered, and numbered above all assets before it. */
  lemma {:induction false} NewNumbersIncrease(t: Table, run: seq<Report>, i: nat, j: nat)
    requires i < j < |Play(t, run)| && |t| <= j
    ensures IsNumbered(Play(t, run)[j].humanId)
    ensures IsNumbered(Play(t, run)[i].humanId) ==> Number(Play(t, run)[i].humanId) < Number(Play(t, run)[j].humanId)
  {
    if run != [] {
      var before := Play(t, run[..|run| - 1]);
      UpsertKeepsHumanIds(before, run[|run| - 1]);
      if j < |before| {
        NewNumbersIncrease(t, run[..|run| - 1], i, j);
      } else {
        NewIdIsAboveAll(before, i);
      }
    }
  }

  /** Certificates, hostnames and human ids stay unique over every run. */
  lemma {:induction false} IdentitiesStayUnique(t: Table, run: seq<Report>, i: nat, j: nat)
    requires Valid(t) && i < |Play(t, run)| && j < |Play(t, run)| && i != j
    ensures var u := Play(t, run);
      u[i].humanId != u[j].humanId
      && (u[i].cert.Some? && u[i].cert != Some("") ==> u[i].cert != u[j].cert)
      && (u[i].hostname.Some? && u[i].hostname != Some("") ==> u[i].hostname != u[j].hostname)
  {
    RunKeepsValid(t, run);
    var u := Play(t, run);
    if i > j { assert u[j].humanId != u[i].humanId; }
  }

  /** No report of the run takes asset i over. */
  predicate NeverTakenOver(t: Table, run: seq<Report>, i: nat) {
    run == []
    || (var most := run[..|run| - 1];
        NeverTakenOver(t, most, i) && !TakesOver(Play(t, most), run[|run| - 1], i))
  }

  lemma {:induction false} KeepsCertificate(t: Table, r: Report, i: nat)
    requires Valid(t) && i < |t| && !TakesOver(t, r, i)
    ensures i < |Upsert(t, r).0| && Upsert(t, r).0[i].cert == t[i].cert
  {
    CertificateChangesByTakeover(t, r, i);
  }

  /** Until an unknown certificate takes it over, an asset keeps its certificate. */
  lemma {:induction false} CertificateStays(t: Table, run: seq<Report>, i: nat)
    requires Valid(t) && i < |t| && NeverTakenOver(t, run, i)
    ensures i < |Play(t, run)| && Play(t, run)[i].cert == t[i].cert
  {
    if run != [] {
      var most := run[..|run| - 1];
      CertificateStays(t, most, i);
      RunKeepsValid(t, most);
      KeepsCertificate(Play(t, most), run[|run| - 1], i);
    }
  }

  // ---------------------------------------------------------------- one report, row by row

  predicate HasCert(t: Table, i: nat, serial: string) { i < |t| && t[i].cert == Some(serial) }

  predicate HasHost(t: Table, i: nat, hostname: string) { i < |t| && t[i].hostname == Some(hostname) }

  predicate HasNumber(t: Table, i: nat, n: nat) { i < |t| && IsNumbered(t[i].humanId) && Number(t[i].humanId) == n }

  /** Row i gets the report, unless another row has its hostname. */
  ghost predicate IsUpdated(t: Table, i: nat, serial: string, hostname: string, u: Table, o: Outcome) {
    && i < |t|
    && if exists j: nat | j < |t| :: j != i && HasHost(t, j, hostname) then u == t && o == HostnameTaken
       else u == t[i := Asset(t[i].humanId, Some(hostname), Some(serial))] && o == Stored(i, t[i].humanId)
  }

  /** A new row, numbered one above the largest number in use, from 1 on; none if the largest bigint is in use. */
  ghost predicate IsAdded(t: Table, serial: string, hostname: string, u: Table, o: Outcome) {
    if exists i: nat, n: nat | i < |t| :: HasNumber(t, i, n) && n >= 9223372036854775807 then u == t && o == NumberOverflow
    else
      && |u| == |t| + 1 && u[..|t|] == t
      && var h := u[|t|].humanId;
         && u[|t|] == Asset(h, Some(hostname), Some(serial)) && o == Stored(|t|, h)
         && |h| > 6 && h[..6] == "arx-c-" && AllDigits(h[6..])
         && (forall i: nat, n: nat | i < |t| :: HasNumber(t, i, n) ==> n < Parse(h[6..]))
         && (Parse(h[6..]) == 1 || exists i: nat, n: nat | i < |t| :: HasNumber(t, i, n) && n + 1 == Parse(h[6..]))
  }

  /** The row of the certificate gets the report; if there is none, the row of the hostname; if there is none either, a new
      row. */
  ghost predicate Identifies(t: Table, r: Report, u: Table, o: Outcome) {
    var hostname, serial := TrimSpace(r.hostname), TrimSpace(r.serial);
    if hostname == "" then u == t && o == MissingHostname
    else if serial == "" then u == t && o == MissingSerial
    else if exists i: nat | i < |t| :: HasCert(t, i, serial) then
      exists i: nat | i < |t| :: HasCert(t, i, serial) && IsUpdated(t, i, serial, hostname, u, o)
    else if exists i: nat | i < |t| :: HasHost(t, i, hostname) then
      exists i: nat | i < |t| :: HasHost(t, i, hostname) && IsUpdated(t, i, serial, hostname, u, o)
    else IsAdded(t, serial, hostname, u, o)
  }

  lemma {:induction false} LargestIsUsed(t: Table)
    ensures MaxNumber(t) > 0 ==> exists i: nat | i < |t| :: HasNumber(t, i, MaxNumber(t))
  {
    if t != [] {
      var most := t[..|t| - 1];
      LargestIsUsed(most);
      if MaxNumber(t) == MaxNumber(most) && MaxNumber(t) > 0 {
        var i: nat :| i < |most| && HasNumber(most, i, MaxNumber(most));
        assert HasNumber(t, i, MaxNumber(t));
      } else if MaxNumber(t) > 0 {
        assert HasNumber(t, |t| - 1, MaxNumber(t));
      }
    }
  }

  lemma {:induction false} LargestIff(t: Table, limit: nat)
    requires limit > 0
    ensures MaxNumber(t) >= limit <==> exists i: nat, n: nat | i < |t| :: HasNumber(t, i, n) && n >= limit
  {
    LargestIsUsed(t);
    if i: nat, n: nat :| i < |t| && HasNumber(t, i, n) && n >= limit { MaxNumberBounds(t, i); }
  }

  lemma {:induction false} AddedMeans(t: Table, serial: string, hostname: string)
    requires MaxNumber(t) < 9223372036854775807
    ensures var h := PREFIX + Print(MaxNumber(t) + 1);
      IsAdded(t, serial, hostname, t + [Asset(h, Some(hostname), Some(serial))], Stored(|t|, h))
  {
    var h := PREFIX + Print(MaxNumber(t) + 1);
    NewIdIsNumbered(MaxNumber(t) + 1);
    LargestIff(t, 9223372036854775807);
    LargestIsUsed(t);
    forall i: nat, n: nat | i < |t| && HasNumber(t, i, n) ensures n < Parse(h[6..]) { MaxNumberBounds(t, i); }
  }

  lemma {:induction false} UpdatedMeans(t: Table, i: nat, serial: string, hostname: string, u: Table, o: Outcome)
    requires i < |t|
    requires (u, o) == if exists j :: 0 <= j < |t| && j != i && t[j].hostname == Some(hostname) then (t, HostnameTaken)
                       else (t[i := Stamp(t[i], serial, hostname)], Stored(i, t[i].humanId))
    ensures IsUpdated(t, i, serial, hostname, u, o)
  {
    if j: nat :| j < |t| && j != i && HasHost(t, j, hostname) { assert t[j].hostname == Some(hostname); }
    if j :| 0 <= j < |t| && j != i && t[j].hostname == Some(hostname) { assert HasHost(t, j, hostname); }
  }

  lemma {:induction false} UpsertIdentifies(t: Table, r: Report)
    ensures Identifies(t, r, Upsert(t, r).0, Upsert(t, r).1)
  {
    var hostname, serial := TrimSpace(r.hostname), TrimSpace(r.serial);
    if hostname != "" && serial != "" {
      var c, f := FindCert(t, serial), FindHost(t, hostname);
      if c.Some? {
        assert HasCert(t, c.value, serial);
        UpdatedMeans(t, c.value, serial, hostname, Upsert(t, r).0, Upsert(t, r).1);
      } else if f.Some? {
        assert HasHost(t, f.value, hostname);
        UpdatedMeans(t, f.value, serial, hostname, Upsert(t, r).0, Upsert(t, r).1);
      } else {
        LargestIff(t, 9223372036854775807);
        if MaxNumber(t) < 9223372036854775807 { AddedMeans(t, serial, hostname); }
      }
    }
  }

  class AssetTable {
    var rows: Table

    constructor ()
      ensures Valid(rows) && rows == []
    {
      rows := [];
    }

    /** The UPDATE; the unique index on hostname may refuse it. */
    method Update(i: nat, serial: string, hostname: string) returns (ok: bool)
      requires i < |rows|
      modifies this
      ensures ok <==> !exists j :: 0 <= j < |old(rows)| && j != i && old(rows)[j].hostname == Some(hostname)
      ensures rows == if ok then old(rows)[i := Stamp(old(rows)[i], serial, hostname)] else old(rows)
    {
      var others := rows[i := rows[i].(hostname := None)];
      var other := FindHost(others, hostname);
      if other.Some? {
        assert rows[other.value].hostname == Some(hostname) && other.value != i;
        return false;
      }
      assert forall j | 0 <= j < |rows| && j != i :: rows[j] == others[j];
      rows := rows[i := rows[i].(hostname := Some(hostname), cert := Some(serial))];
      return true;
    }

    /** upsertAssetFromTelemetry: staged lookups, then an insert or an update. */
    method UpsertAssetFromTelemetry(r: Report) returns (o: Outcome)
      requires Valid(rows)
      modifies this
      ensures Valid(rows) && (rows, o) == Upsert(old(rows), r)
      ensures Identifies(old(rows), r, rows, o)
    {
      UpsertKeepsValid(rows, r);
      UpsertIdentifies(rows, r);
      var hostname := TrimSpace(r.hostname);
      if hostname == "" { return MissingHostname; }
      var serial := TrimSpace(r.serial);
      if serial == "" { return MissingSerial; }
      var id := FindCert(rows, serial);
      if id.None? { id := FindHost(rows, hostname); }
      if id.None? {
        var max := MaxNumber(rows);
        if max >= BIGINT_MAX { return NumberOverflow; }
        var humanId := PREFIX + Print(max + 1);
        rows := rows + [Asset(humanId, Some(hostname), Some(serial))];
        return Stored(|rows| - 1, humanId);
      }
      var ok := Update(id.value, serial, hostname);
      return if ok then Stored(id.value, rows[id.value].humanId) else HostnameTaken;
    }
  }
}
