/** The closed set of priorities an expense can carry, with the codes stored
    in the database and the labels shown to the user
    (lib/constants/expense-priority.ts). */
module ExpensePriorities {
  import opened Wrappers

  datatype ExpensePriority = Need | Want | Unwanted | Planned | Capex

  /** The database enum value. */
  function Code(p: ExpensePriority): string
  {
    match p
    case Need => "need"
    case Want => "want"
    case Unwanted => "unwanted"
    case Planned => "planned"
    case Capex => "capex"
  }

  /** The display label (`PRIORITY_LABELS`). */
  function Label(p: ExpensePriority): string
  {
    match p
    case Need => "Need"
    case Want => "Want"
    case Unwanted => "Unwanted"
    case Planned => "Planned"
    case Capex => "CAPEX"
  }

  /** `ALL_PRIORITIES`: every priority once, in declaration order. */
  function AllPriorities(): (r: seq<ExpensePriority>)
    ensures |r| == 5
    ensures forall p :: p in r
    ensures forall i, j :: 0 <= i < j < |r| ==> r[i] != r[j]
    ensures r[0] == Need && r[1] == Want && r[2] == Unwanted && r[3] == Planned && r[4] == Capex
  {
    EveryValueListed();
    [Need, Want, Unwanted, Planned, Capex]
  }

  lemma EveryValueListed()
    ensures forall p :: p in [Need, Want, Unwanted, Planned, Capex]
  {
    forall p: ExpensePriority ensures p in [Need, Want, Unwanted, Planned, Capex] {
      match p
      case Need =>
      case Want =>
      case Unwanted =>
      case Planned =>
      case Capex =>
    }
  }

  /** Reads a database code; anything but the five codes is rejected. */
  function FromCode(s: string): (r: Option<ExpensePriority>)
    ensures r.Some? ==> Code(r.value) == s
    ensures r.None? ==> forall p :: Code(p) != s
  {
    if s == "need" then Some(Need)
    else if s == "want" then Some(Want)
    else if s == "unwanted" then Some(Unwanted)
    else if s == "planned" then Some(Planned)
    else if s == "capex" then Some(Capex)
    else None
  }

  /** Codes and labels are pairwise distinct, and every code reads back. */
  lemma CodesAndLabelsDistinct(p: ExpensePriority, q: ExpensePriority)
    ensures Code(p) == Code(q) ==> p == q
    ensures Label(p) == Label(q) ==> p == q
    ensures FromCode(Code(p)) == Some(p)
  {
  }
}
