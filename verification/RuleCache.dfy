/** VA-type rules and reserved partner ids: a table, a Redis copy that may vanish, and a copy in memory.

    A nil list and an empty one are the same here: an empty table is read as nil, nil is stored as JSON null, and
    null is read back as a miss. Each database or Redis call may fail; which ones do is a parameter. */
module RuleCache {
  import opened Domain
  import opened Text

  datatype TypeRow = TypeRow(vaType: string, partner: string, rule: TypeRule)
  datatype PartnerRow = PartnerRow(partner: string, bankCode: string)

  /** One list and its copies; [] in `redis` or `memory` is the absence of a copy. */
  datatype Copies<T> = Copies(table: seq<T>, redis: seq<T>, memory: seq<T>)

  datatype State = State(types: Copies<TypeRow>, partners: Copies<PartnerRow>)

  /** The calls of one read that fail: the Redis read, the refill, the Redis write, the last-resort read. */
  datatype ReadFaults = ReadFaults(get: bool, refill: bool, fill: bool, lastResort: bool)
  datatype RefreshFaults = RefreshFaults(types: bool, partners: bool, setTypes: bool, setPartners: bool)

  const NO_READ_FAULTS := ReadFaults(false, false, false, false)
  const NO_REFRESH_FAULTS := RefreshFaults(false, false, false, false)

  datatype ReadOut<T> = ReadOut(copies: Copies<T>, list: Option<seq<T>>)

  /** The list a lookup works on: Redis, else the table, else memory, else the table once more. */
  function Read<T(==)>(c: Copies<T>, f: ReadFaults): ReadOut<T> {
    if !f.get && c.redis != [] then ReadOut(c.(memory := c.redis), Some(c.redis))
    else if !f.get && !f.refill then
      ReadOut(c.(memory := c.table, redis := if f.fill then c.redis else c.table), Some(c.table))
    else if c.memory != [] then ReadOut(c, Some(c.memory))
    else ReadOut(c, if f.lastResort then None else Some(c.table))
  }

  /** Both lists are read before either copy is replaced. */
  function Refresh(s: State, f: RefreshFaults): State {
    if f.types || f.partners then s
    else
      State(s.types.(memory := s.types.table, redis := if f.setTypes then s.types.redis else s.types.table),
            s.partners.(memory := s.partners.table, redis := if f.setPartners then s.partners.redis else s.partners.table))
  }

  predicate MatchesRule(row: TypeRow, partner: string, vaType: string) {
    row.vaType == vaType && Trim(row.partner) == Trim(partner)
  }

  /** The first rule of the list for this partner and type. */
  function ScanRules(rows: seq<TypeRow>, partner: string, vaType: string): Option<TypeRow> {
    if rows == [] then None
    else if MatchesRule(rows[0], partner, vaType) then Some(rows[0])
    else ScanRules(rows[1..], partner, vaType)
  }

  predicate ScanPartners(rows: seq<PartnerRow>, partner: string) {
    exists i :: 0 <= i < |rows| && Trim(rows[i].partner) == Trim(partner)
  }

  /** An answer, or the error when no list could be read. */
  datatype Answer<T> = Unavailable | Known(value: T)

  // ---------------------------------------------------------------- the provider

  class CachedVATypeRuleProvider {
    var typeTable: seq<TypeRow>
    var partnerTable: seq<PartnerRow>
    var redisTypes: seq<TypeRow>
    var redisPartners: seq<PartnerRow>
    var vaTypes: seq<TypeRow>
    var partnerIDs: seq<PartnerRow>

    ghost function View(): State
      reads this
    {
      State(Copies(typeTable, redisTypes, vaTypes), Copies(partnerTable, redisPartners, partnerIDs))
    }

    constructor (types: seq<TypeRow>, partners: seq<PartnerRow>)
      ensures View() == State(Copies(types, [], []), Copies(partners, [], []))
    {
      typeTable, partnerTable := types, partners;
      redisTypes, redisPartners, vaTypes, partnerIDs := [], [], [], [];
    }

    method RefreshNow(f: RefreshFaults) returns (ok: bool)
      modifies this
      ensures View() == Refresh(old(View()), f) && ok == (!f.types && !f.partners)
    {
      if f.types { return false; }
      var types := typeTable;
      if f.partners { return false; }
      var partners := partnerTable;
      vaTypes, partnerIDs := types, partners;
      if !f.setTypes { redisTypes := types; }
      if !f.setPartners { redisPartners := partners; }
      return true;
    }

    method CurrentVATypes(f: ReadFaults) returns (list: Option<seq<TypeRow>>)
      modifies this
      ensures var out := Read(old(View()).types, f);
              View() == old(View()).(types := out.copies) && list == out.list
    {
      if !f.get {
        var cached := redisTypes;
        if cached != [] {
          vaTypes := cached;
          return Some(cached);
        }
        if !f.refill {
          var rows := typeTable;
          vaTypes := rows;
          if !f.fill { redisTypes := rows; }
          return Some(rows);
        }
      }
      if vaTypes != [] { return Some(vaTypes); }
      if f.lastResort { return None; }
      return Some(typeTable);
    }

    method CurrentPartnerIDs(f: ReadFaults) returns (list: Option<seq<PartnerRow>>)
      modifies this
      ensures var out := Read(old(View()).partners, f);
              View() == old(View()).(partners := out.copies) && list == out.list
    {
      if !f.get {
        var cached := redisPartners;
        if cached != [] {
          partnerIDs := cached;
          return Some(cached);
        }
        if !f.refill {
          var rows := partnerTable;
          partnerIDs := rows;
          if !f.fill { redisPartners := rows; }
          return Some(rows);
        }
      }
      if partnerIDs != [] { return Some(partnerIDs); }
      if f.lastResort { return None; }
      return Some(partnerTable);
    }

    method LookupVATypeRule(partner: string, vaType: string, f: ReadFaults) returns (answer: Answer<Option<TypeRow>>)
      modifies this
      ensures var out := Read(old(View()).types, f);
              && View() == old(View()).(types := out.copies)
              && answer == (match out.list case None => Unavailable case Some(l) => Known(ScanRules(l, partner, vaType)))
    {
      var list := CurrentVATypes(f);
      if list.None? { return Unavailable; }
      var rows, i := list.value, 0;
      while i < |rows|
        invariant i <= |rows|
        invariant ScanRules(rows, partner, vaType) == ScanRules(rows[i..], partner, vaType)
      {
        if MatchesRule(rows[i], partner, vaType) { return Known(Some(rows[i])); }
        assert rows[i..][1..] == rows[i + 1..];
        i := i + 1;
      }
      return Known(None);
    }

    method IsReservedPartnerServiceID(partner: string, f: ReadFaults) returns (answer: Answer<bool>)
      modifies this
      ensures var out := Read(old(View()).partners, f);
              && View() == old(View()).(partners := out.copies)
              && answer == (match out.list case None => Unavailable case Some(l) => Known(ScanPartners(l, partner)))
    {
      var list := CurrentPartnerIDs(f);
      if list.None? { return Unavailable; }
      var rows, i := list.value, 0;
      while i < |rows|
        invariant i <= |rows|
        invariant forall k :: 0 <= k < i ==> Trim(rows[k].partner) != Trim(partner)
      {
        if Trim(rows[i].partner) == Trim(partner) { return Known(true); }
        i := i + 1;
      }
      return Known(false);
    }

    /** Create, update and delete of a VA type: `rows` is what the statement leaves in the table. */
    method SaveVATypes(rows: seq<TypeRow>, fails: bool, f: RefreshFaults) returns (ok: bool)
      modifies this
      ensures View() == Next(old(View()), SaveTypes(rows, fails, f))
      ensures ok == (!fails && !f.types && !f.partners)
    {
      if fails { return false; }
      typeTable := rows;
      ok := RefreshNow(f);
    }

    method SavePartnerServiceIDs(rows: seq<PartnerRow>, fails: bool, f: RefreshFaults) returns (ok: bool)
      modifies this
      ensures View() == Next(old(View()), SavePartners(rows, fails, f))
      ensures ok == (!fails && !f.types && !f.partners)
    {
      if fails { return false; }
      partnerTable := rows;
      ok := RefreshNow(f);
    }
  }

  // ---------------------------------------------------------------- runs

  /** What may happen to the lists. The last four are not the provider's doing: the tables are edited behind its
      back, Redis drops a key, another instance fills Redis from the tables, and the process restarts. */
  datatype Event =
    | ReadTypes(f: ReadFaults)
    | ReadPartners(f: ReadFaults)
    | RefreshBoth(r: RefreshFaults)
    | SaveTypes(types: seq<TypeRow>, fails: bool, r: RefreshFaults)
    | SavePartners(partners: seq<PartnerRow>, fails: bool, r: RefreshFaults)
    | EditTables(types: seq<TypeRow>, partners: seq<PartnerRow>)
    | RedisDrops(dropTypes: bool, dropPartners: bool)
    | PeerFills
    | Restart

  function Next(s: State, e: Event): State {
    match e
    case ReadTypes(f) => s.(types := Read(s.types, f).copies)
    case ReadPartners(f) => s.(partners := Read(s.partners, f).copies)
    case RefreshBoth(r) => Refresh(s, r)
    case SaveTypes(rows, fails, r) => if fails then s else Refresh(s.(types := s.types.(table := rows)), r)
    case SavePartners(rows, fails, r) => if fails then s else Refresh(s.(partners := s.partners.(table := rows)), r)
    case EditTables(types, partners) =>
      State(s.types.(table := types), s.partners.(table := partners))
    case RedisDrops(t, p) =>
      State(if t then s.types.(redis := []) else s.types, if p then s.partners.(redis := []) else s.partners)
    case PeerFills => State(s.types.(redis := s.types.table), s.partners.(redis := s.partners.table))
    case Restart => State(s.types.(memory := []), s.partners.(memory := []))
  }

  function Run(start: State, run: seq<Event>): State {
    if |run| == 0 then start else Next(Run(start, run[..|run| - 1]), run[|run| - 1])
  }

  /** A provider just created over these tables. */
  predicate Created(s: State) {
    s.types.redis == [] && s.types.memory == [] && s.partners.redis == [] && s.partners.memory == []
  }

  /** Whether the tables held the list at some moment of the run. */
  ghost predicate TypesHeld(start: State, run: seq<Event>, list: seq<TypeRow>) {
    exists n :: 0 <= n <= |run| && Run(start, run[..n]).types.table == list
  }

  ghost predicate PartnersHeld(start: State, run: seq<Event>, list: seq<PartnerRow>) {
    exists n :: 0 <= n <= |run| && Run(start, run[..n]).partners.table == list
  }

  lemma TableIsHeld(start: State, run: seq<Event>)
    ensures TypesHeld(start, run, Run(start, run).types.table)
    ensures PartnersHeld(start, run, Run(start, run).partners.table)
  {
    assert run[..|run|] == run;
  }

  lemma HeldEarlier(start: State, run: seq<Event>)
    requires |run| > 0
    ensures forall l :: TypesHeld(start, run[..|run| - 1], l) ==> TypesHeld(start, run, l)
    ensures forall l :: PartnersHeld(start, run[..|run| - 1], l) ==> PartnersHeld(start, run, l)
  {
    var before := run[..|run| - 1];
    forall n | 0 <= n <= |before| ensures before[..n] == run[..n] {
    }
  }

  /** A copy is absent, or a list the tables once held. */
  ghost predicate CopiesHeld(start: State, run: seq<Event>) {
    var s := Run(start, run);
    && (s.types.redis != [] ==> TypesHeld(start, run, s.types.redis))
    && (s.types.memory != [] ==> TypesHeld(start, run, s.types.memory))
    && (s.partners.redis != [] ==> PartnersHeld(start, run, s.partners.redis))
    && (s.partners.memory != [] ==> PartnersHeld(start, run, s.partners.memory))
  }

  /** One event only moves lists between the copies. */
  lemma CopiesMove(s: State, e: Event)
    ensures var t := Next(s, e);
            && t.types.redis in {[], s.types.redis, s.types.table, t.types.table}
            && t.types.memory in {[], s.types.memory, s.types.redis, s.types.table, t.types.table}
            && t.partners.redis in {[], s.partners.redis, s.partners.table, t.partners.table}
            && t.partners.memory in {[], s.partners.memory, s.partners.redis, s.partners.table, t.partners.table}
  {
  }

  lemma {:induction false} CopiesAreHeld(start: State, run: seq<Event>)
    requires Created(start)
    ensures CopiesHeld(start, run)
  {
    if |run| > 0 {
      var before := run[..|run| - 1];
      CopiesAreHeld(start, before);
      TableIsHeld(start, before);
      TableIsHeld(start, run);
      HeldEarlier(start, run);
      CopiesMove(Run(start, before), run[|run| - 1]);
    }
  }

  /** Under any failures, edits and restarts, every list a lookup works on is one the table really held. */
  lemma AnsweredListsWereHeld(start: State, run: seq<Event>, f: ReadFaults)
    requires Created(start)
    ensures var s := Run(start, run);
            && (Read(s.types, f).list.Some? ==> TypesHeld(start, run, Read(s.types, f).list.value))
            && (Read(s.partners, f).list.Some? ==> PartnersHeld(start, run, Read(s.partners, f).list.value))
  {
    CopiesAreHeld(start, run);
    TableIsHeld(start, run);
  }

  /** No call fails, and the tables change through the provider only. */
  predicate Clean(e: Event) {
    match e
    case ReadTypes(f) => f == NO_READ_FAULTS
    case ReadPartners(f) => f == NO_READ_FAULTS
    case RefreshBoth(r) => r == NO_REFRESH_FAULTS
    case SaveTypes(_, _, r) => r == NO_REFRESH_FAULTS
    case SavePartners(_, _, r) => r == NO_REFRESH_FAULTS
    case EditTables(_, _) => false
    case RedisDrops(_, _) => true
    case PeerFills => true
    case Restart => true
  }

  predicate RedisCurrent(s: State) {
    s.types.redis in {[], s.types.table} && s.partners.redis in {[], s.partners.table}
  }

  lemma {:induction false} CleanRunsKeepRedisCurrent(start: State, run: seq<Event>)
    requires RedisCurrent(start) && forall i :: 0 <= i < |run| ==> Clean(run[i])
    ensures RedisCurrent(Run(start, run))
  {
    if |run| > 0 {
      CleanRunsKeepRedisCurrent(start, run[..|run| - 1]);
    }
  }

  /** Without failures every lookup is a scan of the table as it is now, whatever Redis has dropped. */
  lemma CleanLookupsScanTheTable(start: State, run: seq<Event>)
    requires RedisCurrent(start) && forall i :: 0 <= i < |run| ==> Clean(run[i])
    ensures var s := Run(start, run);
            && Read(s.types, NO_READ_FAULTS).list == Some(s.types.table)
            && Read(s.partners, NO_READ_FAULTS).list == Some(s.partners.table)
  {
    CleanRunsKeepRedisCurrent(start, run);
  }

  /** A lookup without failures works on the table. */
  predicate TypesVisible(s: State) {
    Read(s.types, NO_READ_FAULTS).list == Some(s.types.table)
  }

  predicate PartnersVisible(s: State) {
    Read(s.partners, NO_READ_FAULTS).list == Some(s.partners.table)
  }

  /** The refresh got as far as writing Redis. */
  predicate Refreshed(r: RefreshFaults) {
    !r.types && !r.partners
  }

  /** A change of the VA types is visible to the next lookup exactly when the refresh wrote it to Redis, or Redis
      held nothing to serve instead, or the same list already. */
  lemma TypesChangeVisibleExactlyWhen(s: State, rows: seq<TypeRow>, r: RefreshFaults)
    ensures TypesVisible(Next(s, SaveTypes(rows, false, r)))
            <==> (Refreshed(r) && !r.setTypes) || s.types.redis == [] || s.types.redis == rows
  {
  }

  lemma PartnersChangeVisibleExactlyWhen(s: State, rows: seq<PartnerRow>, r: RefreshFaults)
    ensures PartnersVisible(Next(s, SavePartners(rows, false, r)))
            <==> (Refreshed(r) && !r.setPartners) || s.partners.redis == [] || s.partners.redis == rows
  {
  }

  /** The event replaces or drops what Redis serves of the types. */
  predicate RenewsTypes(e: Event) {
    || e.RefreshBoth? || e.PeerFills? || (e.RedisDrops? && e.dropTypes)
    || ((e.SaveTypes? || e.SavePartners?) && !e.fails)
  }

  predicate RenewsPartners(e: Event) {
    || e.RefreshBoth? || e.PeerFills? || (e.RedisDrops? && e.dropPartners)
    || ((e.SaveTypes? || e.SavePartners?) && !e.fails)
  }

  lemma CleanStepOnTypes(s: State, e: Event)
    requires Clean(e)
    ensures RenewsTypes(e) || TypesVisible(s) ==> TypesVisible(Next(s, e))
    ensures !RenewsTypes(e) && !TypesVisible(s) ==> Next(s, e).types.redis == s.types.redis && !TypesVisible(Next(s, e))
  {
  }

  lemma CleanStepOnPartners(s: State, e: Event)
    requires Clean(e)
    ensures RenewsPartners(e) || PartnersVisible(s) ==> PartnersVisible(Next(s, e))
    ensures !RenewsPartners(e) && !PartnersVisible(s) ==>
              Next(s, e).partners.redis == s.partners.redis && !PartnersVisible(Next(s, e))
  {
  }

  /** Once a change has been missed, further calls without failures serve the old list until one of them refreshes,
      another instance fills Redis, or Redis drops the key; from then on they serve the table. */
  lemma {:induction false} MissedTypesServedUntilRenewed(s: State, run: seq<Event>)
    requires !TypesVisible(s) && forall i :: 0 <= i < |run| ==> Clean(run[i])
    ensures TypesVisible(Run(s, run)) <==> exists i :: 0 <= i < |run| && RenewsTypes(run[i])
    ensures !TypesVisible(Run(s, run)) ==> Run(s, run).types.redis == s.types.redis
  {
    if |run| > 0 {
      var n := |run| - 1;
      MissedTypesServedUntilRenewed(s, run[..n]);
      CleanStepOnTypes(Run(s, run[..n]), run[n]);
      hide TypesVisible, RenewsTypes, Clean, Next;
      assert forall i :: 0 <= i < n ==> run[..n][i] == run[i];
      if i :| 0 <= i < |run[..n]| && RenewsTypes(run[..n][i]) {
        assert RenewsTypes(run[i]);
      }
    }
  }

  lemma {:induction false} MissedPartnersServedUntilRenewed(s: State, run: seq<Event>)
    requires !PartnersVisible(s) && forall i :: 0 <= i < |run| ==> Clean(run[i])
    ensures PartnersVisible(Run(s, run)) <==> exists i :: 0 <= i < |run| && RenewsPartners(run[i])
    ensures !PartnersVisible(Run(s, run)) ==> Run(s, run).partners.redis == s.partners.redis
  {
    if |run| > 0 {
      var n := |run| - 1;
      MissedPartnersServedUntilRenewed(s, run[..n]);
      CleanStepOnPartners(Run(s, run[..n]), run[n]);
      hide PartnersVisible, RenewsPartners, Clean, Next;
      assert forall i :: 0 <= i < n ==> run[..n][i] == run[i];
      if i :| 0 <= i < |run[..n]| && RenewsPartners(run[..n][i]) {
        assert RenewsPartners(run[i]);
      }
    }
  }

  // ---------------------------------------------------------------- one read, then an outage

  /** A read finds no list exactly when neither Redis nor the table answered at first, no copy is in memory, and the last
      attempt on the table failed too. */
  lemma NoListExactlyWhen<T>(c: Copies<T>, f: ReadFaults)
    ensures Read(c, f).list.None? <==>
            (f.get || (c.redis == [] && f.refill)) && c.memory == [] && f.lastResort
  {
  }

  /** A read that Redis or the table answered leaves its list in memory, and serves it again when Redis is out; what the
      table answered is put into Redis for the next read, whatever the table holds by then. */
  lemma AnswerOutlivesAnOutage<T>(c: Copies<T>, f: ReadFaults, later: seq<T>, g: ReadFaults)
    requires !f.get && (c.redis != [] || !f.refill)
    ensures var out := Read(c, f);
            && out.list == Some(if c.redis != [] then c.redis else c.table)
            && (out.list.value != [] && g.get ==> Read(out.copies.(table := later), g).list == out.list)
            && (out.list.value != [] && !g.get && (c.redis != [] || !f.fill) ==>
                  Read(out.copies.(table := later), g).list == out.list)
  {
  }

  /** A refresh that read both lists reaches the copies in memory, so an outage of Redis right after serves the tables;
      one that missed either list changes no copy of either. */
  lemma RefreshReachesMemory(s: State, r: RefreshFaults, g: ReadFaults)
    requires g.get
    ensures var after := Refresh(s, r);
            if r.types || r.partners then after == s
            else
              && (s.types.table != [] ==> Read(after.types, g).list == Some(s.types.table))
              && (s.partners.table != [] ==> Read(after.partners, g).list == Some(s.partners.table))
  {
  }

  /** With nothing in Redis or memory and Redis out, a read still reaches the table. */
  lemma LastResortReadsTheTable<T>(c: Copies<T>, f: ReadFaults)
    requires f.get && !f.lastResort
    ensures Read(c, f).list == Some(if c.memory != [] then c.memory else c.table) && Read(c, f).copies == c
  {
  }

  // ---------------------------------------------------------------- padding and order

  lemma TrimIgnoresPadding(left: string, s: string, right: string)
    requires AllSpaces(left) && AllSpaces(right)
    ensures Trim(left + s + right) == Trim(s)
  {
    var l, r := TrimSplits(s);
    assert left + s + right == (left + l) + Trim(s) + (r + right);
    TrimOfPadding(left + l, Trim(s), r + right);
  }

  lemma {:induction false} ScanSeesTrimmed(rows: seq<TypeRow>, p: string, q: string, vaType: string)
    requires Trim(p) == Trim(q)
    ensures ScanRules(rows, p, vaType) == ScanRules(rows, q, vaType)
  {
    if rows != [] {
      ScanSeesTrimmed(rows[1..], p, q, vaType);
    }
  }

  /** Space padding of the partner id, asked for or stored, changes no lookup. */
  lemma PaddingIsInvisible(rows: seq<TypeRow>, partners: seq<PartnerRow>, left: string, partner: string, right: string,
                           vaType: string)
    requires AllSpaces(left) && AllSpaces(right)
    ensures ScanRules(rows, left + partner + right, vaType) == ScanRules(rows, partner, vaType)
    ensures ScanPartners(partners, left + partner + right) == ScanPartners(partners, partner)
    ensures forall bank :: ScanPartners([PartnerRow(left + partner + right, bank)], partner)
  {
    TrimIgnoresPadding(left, partner, right);
    ScanSeesTrimmed(rows, left + partner + right, partner, vaType);
    forall bank ensures ScanPartners([PartnerRow(left + partner + right, bank)], partner) {
      assert [PartnerRow(left + partner + right, bank)][0].partner == left + partner + right;
    }
  }

  /** A lookup answers the first rule of this type for this partner, padding aside, and nothing exactly when there is
      none. */
  lemma {:induction false} ScanFindsFirst(rows: seq<TypeRow>, partner: string, vaType: string)
    ensures ScanRules(rows, partner, vaType).None? <==>
            forall i :: 0 <= i < |rows| ==> rows[i].vaType != vaType || Trim(rows[i].partner) != Trim(partner)
    ensures ScanRules(rows, partner, vaType).Some? ==>
            exists i :: 0 <= i < |rows| && rows[i] == ScanRules(rows, partner, vaType).value
                        && rows[i].vaType == vaType && Trim(rows[i].partner) == Trim(partner)
                        && forall k :: 0 <= k < i ==> rows[k].vaType != vaType || Trim(rows[k].partner) != Trim(partner)
  {
    if rows != [] && !MatchesRule(rows[0], partner, vaType) {
      var rest := rows[1..];
      ScanFindsFirst(rest, partner, vaType);
      assert forall i :: 0 < i < |rows| ==> rows[i] == rest[i - 1];
      if ScanRules(rest, partner, vaType).Some? {
        var i :| 0 <= i < |rest| && rest[i] == ScanRules(rest, partner, vaType).value
                 && rest[i].vaType == vaType && Trim(rest[i].partner) == Trim(partner)
                 && forall k :: 0 <= k < i ==> rest[k].vaType != vaType || Trim(rest[k].partner) != Trim(partner);
        assert rows[i + 1] == ScanRules(rows, partner, vaType).value;
      }
    }
  }
}
