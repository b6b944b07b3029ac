/** `HOMEWORK_STATUSES` (homework.py:22-26): the fixed catalog from a review
    status key to the verdict text sent to the user. */
module Catalog {
  import opened Wrappers

  datatype Status = Approved | Reviewing | Rejected

  /** The key the API uses for the status. */
  function Key(st: Status): string
  {
    match st
    case Approved => "approved"
    case Reviewing => "reviewing"
    case Rejected => "rejected"
  }

  /** The verdict text the catalog holds for the status. */
  function Verdict(st: Status): string
  {
    match st
    case Approved => "Работа проверена: ревьюеру всё понравилось. Ура!"
    case Reviewing => "Работа взята на проверку ревьюером."
    case Rejected => "Работа проверена: у ревьюера есть замечания."
  }

  /** `key in HOMEWORK_STATUSES` followed by the lookup: the status whose key
      is `key`, or None when the catalog has no such key. */
  function Lookup(key: string): (r: Option<Status>)
    ensures r.Some? ==> Key(r.value) == key
    ensures r.None? <==> forall st: Status :: Key(st) != key
  {
    if key == "approved" then Some(Approved)
    else if key == "reviewing" then Some(Reviewing)
    else if key == "rejected" then Some(Rejected)
    else None
  }

  /** Every status is found again under its own key. */
  lemma LookupKey(st: Status)
    ensures Lookup(Key(st)) == Some(st)
  {
  }

  /** Different statuses have different verdicts, so the verdict identifies
      the status. */
  lemma VerdictInjective(a: Status, b: Status)
    ensures Verdict(a) == Verdict(b) ==> a == b
  {
    if a != b {
      assert Verdict(a)[|Verdict(a)| - 2] != Verdict(b)[|Verdict(b)| - 2];
    }
  }
}
