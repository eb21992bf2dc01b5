/**
 * Library functions the notification code relies on, as arbitrary functions. A theorem that needs
 * something of them requires just that: ids that are clean strings, ids that identify what they are
 * made from, timestamps that survive `isoformat`/`fromisoformat`.
 */
module Platforms {
  import opened Basics
  import opened Text

  datatype Platform = Platform(
    itemId: (string, int, int, string) -> string,
    rollupId: (string, int, int, seq<string>) -> string,
    jobId: (string, string, string, Json) -> string,
    isoformat: int -> string,
    fromIso: string -> Option<int>,
    str: Json -> string,
    size: Json -> nat)
  {
    /** Item ids are trimmed and printable. */
    ghost predicate CleanItemIds() {
      forall w, s, e, k :: Clean(itemId(w, s, e, k))
    }

    /** Rollup ids are trimmed and printable. */
    ghost predicate CleanRollupIds() {
      forall w, s, e, ids :: Clean(rollupId(w, s, e, ids))
    }

    /** Items of different groups or windows have different ids. */
    ghost predicate ItemIdsIdentify() {
      forall w, s, e, k, w', s', e', k' | itemId(w, s, e, k) == itemId(w', s', e', k') ::
        w == w' && s == s' && e == e' && k == k'
    }

    /** Jobs with different payloads have different ids. Payloads hold no floating-point numbers. */
    ghost predicate JobIdsIdentify() {
      forall w, r, c, j, w', r', c', j' | FloatFree(j) && FloatFree(j') && jobId(w, r, c, j) == jobId(w', r', c', j') ::
        w == w' && r == r' && c == c' && j == j'
    }

    ghost predicate TimesSurvive() {
      forall t :: fromIso(isoformat(t)) == Some(t)
    }

    /** What construction of digest items relies on. */
    ghost predicate GoodItemIds() {
      CleanItemIds() && ItemIdsIdentify()
    }

    ghost predicate Faithful() {
      GoodItemIds() && CleanRollupIds() && JobIdsIdentify() && TimesSurvive()
    }
  }
}
