/** The page language: traditional Chinese or English. */
module Language {

  datatype Lang = ZhHant | En

  /** The language the page starts in. */
  const Initial: Lang := ZhHant

  /**
   * The language button flips between the two languages. With only two
   * languages, `r != l` determines the result completely, and toggling
   * twice returns to where it started.
   */
  function Toggle(l: Lang): (r: Lang)
    ensures r != l
  {
    if l == ZhHant then En else ZhHant
  }

  lemma ToggleTwice(l: Lang)
    ensures Toggle(Toggle(l)) == l
  {
  }

  /** The language after `n` clicks of the language button since page load. */
  function AfterClicks(n: nat): Lang
  {
    if n == 0 then Initial else Toggle(AfterClicks(n - 1))
  }

  /** The page shows English exactly after an odd number of clicks, traditional Chinese after an even number. */
  lemma {:induction false} AfterClicksParity(n: nat)
    ensures AfterClicks(n) == En <==> n % 2 == 1
    ensures AfterClicks(n) == ZhHant <==> n % 2 == 0
  {
    if n > 0 {
      AfterClicksParity(n - 1);
    }
  }
}
