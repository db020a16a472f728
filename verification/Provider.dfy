/** The cell that holds the active policy: internal/policy/provider.go. */
module Provider {
  import opened Basics
  import opened Policy

  class Provider {
    var p: Option<Policy>

    constructor (initial: Option<Policy>)
      ensures p == initial
    {
      p := initial;
    }

    method Get() returns (policy: Option<Policy>)
      ensures policy == p
    {
      return p;
    }

    method Set(np: Option<Policy>)
      modifies this
      ensures p == np
    {
      p := np;
    }
  }
}
