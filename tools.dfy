/** The three tools that do not touch the caches: `multiply`, the
    `greeting://{name}` resource and the `ask_code_review` prompt. */
module Tools {
  import opened PyValues

  /** Reference definition: `a` added to itself `n` times. */
  function RepeatedSum(a: int, n: nat): int
  {
    if n == 0 then 0 else RepeatedSum(a, n - 1) + a
  }

  /** Adding `a` to itself `n` times gives the product `a * n`, for every
      integer `a`, however large. */
  lemma {:induction false} RepeatedSumIsProduct(a: int, n: nat)
    ensures RepeatedSum(a, n) == a * n
  {
    if n > 0 {
      RepeatedSumIsProduct(a, n - 1);
      assert a * n == a * (n - 1) + a;
    }
  }

  /** `multiply`: Python integers are unbounded, so there is no overflow;
      the result is `b` copies of `a` added together, negated when `b` is
      negative. */
  function Multiply(a: int, b: int): (r: int)
    ensures r == if b >= 0 then RepeatedSum(a, b) else -RepeatedSum(a, -b)
  {
    RepeatedSumIsProduct(a, if b >= 0 then b else -b);
    a * b
  }

  const GreetingPrefix := "Welcome, "
  const GreetingSuffix := "!"

  /** `get_message`: the f-string `Welcome, {name}!`. */
  function GetMessage(name: string): (r: string)
    ensures GreetedName(r) == Some(name)
  {
    GreetingPrefix + name + GreetingSuffix
  }

  /** The name a greeting was built for, if `g` has the greeting's shape. */
  function GreetedName(g: string): Option<string>
  {
    if |g| >= |GreetingPrefix| + |GreetingSuffix| &&
       g[..|GreetingPrefix|] == GreetingPrefix &&
       g[|g| - |GreetingSuffix|..] == GreetingSuffix
    then Some(g[|GreetingPrefix|..|g| - |GreetingSuffix|])
    else None
  }

  /** The greeting determines the name and every greeting-shaped string comes
      from exactly one name: `GreetedName` inverts `GetMessage`. */
  lemma GreetingRoundTrip(name: string, g: string)
    ensures GreetedName(g) == Some(name) <==> GetMessage(name) == g
  {
  }

  const ReviewPrefix := "Please review the following code: "

  /** `ask_code_review`: the f-string `Please review the following code: {code_snippet}`. */
  function AskCodeReview(snippet: string): (r: string)
    ensures ReviewedSnippet(r) == Some(snippet)
  {
    ReviewPrefix + snippet
  }

  /** The snippet a review prompt was built for, if `p` has the prompt's shape. */
  function ReviewedSnippet(p: string): Option<string>
  {
    if |p| >= |ReviewPrefix| && p[..|ReviewPrefix|] == ReviewPrefix
    then Some(p[|ReviewPrefix|..])
    else None
  }

  /** `ReviewedSnippet` inverts `AskCodeReview`, in both directions. */
  lemma ReviewPromptRoundTrip(snippet: string, p: string)
    ensures ReviewedSnippet(p) == Some(snippet) <==> AskCodeReview(snippet) == p
  {
  }
}
