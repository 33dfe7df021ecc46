// Replies of the world outside the model: disks, peers, nodes, clocks.
module Outside {
  method AnyOutcome() returns (ok: bool)
  {
    ok := *;
  }

  method AnyText() returns (text: string)
  {
    text := *;
  }
}
