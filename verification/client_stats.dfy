/** The four counters above the client list: total, active, inactive and
    new this month. */
module ClientStats {
  import opened Wrappers
  import opened Clients

  /** The number of clients with status `s`. */
  function CountStatus(clients: seq<Client>, s: Status): (n: nat)
    ensures n <= |clients|
  {
    if clients == [] then 0
    else CountStatus(clients[..|clients| - 1], s) + (if clients[|clients| - 1].status == s then 1 else 0)
  }

  /** A calendar month: what `getMonth()` and `getFullYear()` read. */
  datatype MonthYear = MonthYear(month: int, year: int)

  /** The date a client started: the therapy start date when it is set and
      not empty, the creation time otherwise. */
  function StartDateText(c: Client): string {
    if c.therapyStartDate.Some? && c.therapyStartDate.value != "" then c.therapyStartDate.value
    else c.createdAt
  }

  /** Whether a client started in the month `now` falls in. `monthOf` is the
      month a date text parses to in local time, `None` for an invalid date
      (whose month compares unequal to every month). */
  predicate StartedIn(c: Client, monthOf: string -> Option<MonthYear>, now: MonthYear) {
    monthOf(StartDateText(c)) == Some(now)
  }

  /** The number of clients that started in the current month. */
  function NewThisMonth(clients: seq<Client>, monthOf: string -> Option<MonthYear>, now: MonthYear): (n: nat)
    ensures n <= |clients|
  {
    if clients == [] then 0
    else
      NewThisMonth(clients[..|clients| - 1], monthOf, now)
      + (if StartedIn(clients[|clients| - 1], monthOf, now) then 1 else 0)
  }

  /** Every client is active or inactive, so the two counters add up to the
      total. */
  lemma {:induction false} ActivePlusInactiveIsTotal(clients: seq<Client>)
    ensures CountStatus(clients, Active) + CountStatus(clients, Inactive) == |clients|
  {
    if clients != [] {
      ActivePlusInactiveIsTotal(clients[..|clients| - 1]);
    }
  }

  /** A client counts under its own status and not under the other one:
      adding a client raises exactly its status's counter by one. */
  lemma AddingClientRaisesItsCounter(clients: seq<Client>, c: Client, s: Status)
    ensures CountStatus(clients + [c], s) == CountStatus(clients, s) + (if c.status == s then 1 else 0)
  {
    assert (clients + [c])[..|clients|] == clients;
  }

  /** The status counters add up over a split of the list, so they count
      each client once, wherever it stands. */
  lemma {:induction false} CountStatusAdditive(a: seq<Client>, b: seq<Client>, s: Status)
    ensures CountStatus(a + b, s) == CountStatus(a, s) + CountStatus(b, s)
    decreases |b|
  {
    if b == [] {
      assert a + b == a;
    } else {
      var k := |b| - 1;
      assert (a + b)[..|a + b| - 1] == a + b[..k];
      assert (a + b)[|a + b| - 1] == b[k];
      CountStatusAdditive(a, b[..k], s);
    }
  }

  /** The new-this-month counter adds up over a split of the list. */
  lemma {:induction false} NewThisMonthAdditive(a: seq<Client>, b: seq<Client>, monthOf: string -> Option<MonthYear>, now: MonthYear)
    ensures NewThisMonth(a + b, monthOf, now) == NewThisMonth(a, monthOf, now) + NewThisMonth(b, monthOf, now)
    decreases |b|
  {
    if b == [] {
      assert a + b == a;
    } else {
      var k := |b| - 1;
      assert (a + b)[..|a + b| - 1] == a + b[..k];
      assert (a + b)[|a + b| - 1] == b[k];
      NewThisMonthAdditive(a, b[..k], monthOf, now);
    }
  }

  /** A single client counts as new exactly when it started this month. */
  lemma NewThisMonthOfOne(c: Client, monthOf: string -> Option<MonthYear>, now: MonthYear)
    ensures NewThisMonth([c], monthOf, now) == if StartedIn(c, monthOf, now) then 1 else 0
  {
    assert [c][..0] == [];
  }

  /** One card of the row: its title and number. */
  datatype StatCard = StatCard(name: string, value: nat)

  /** The cards in their fixed order. */
  function StatCards(clients: seq<Client>, monthOf: string -> Option<MonthYear>, now: MonthYear): (r: seq<StatCard>)
    ensures |r| == 4
    ensures r[0] == StatCard("Total Clients", |clients|)
    ensures r[1].name == "Active Clients" && r[2].name == "Inactive Clients" && r[3].name == "New This Month"
    ensures r[1].value == CountStatus(clients, Active) && r[2].value == CountStatus(clients, Inactive)
    ensures r[3].value == NewThisMonth(clients, monthOf, now)
    ensures r[1].value + r[2].value == r[0].value
    ensures r[3].value <= r[0].value
  {
    ActivePlusInactiveIsTotal(clients);
    [StatCard("Total Clients", |clients|),
     StatCard("Active Clients", CountStatus(clients, Active)),
     StatCard("Inactive Clients", CountStatus(clients, Inactive)),
     StatCard("New This Month", NewThisMonth(clients, monthOf, now))]
  }
}
