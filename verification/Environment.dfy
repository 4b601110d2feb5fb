/** What the surroundings of a program decide. */
module Environment {

  method AnyNumber() returns (n: nat) {
    var x: int := *;
    n := if x < 0 then 0 else x;
  }
}
