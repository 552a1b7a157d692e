/** The measurement data that the fidelity and entropy analyses consume. */
module Measurements {

  /** One entry of an outcome-count dictionary: a measured bitstring and the number of shots that gave it. */
  datatype Outcome = Outcome(bits: string, count: nat)

  /** An outcome-count dictionary, its entries in the dictionary's insertion order. */
  type Counts = seq<Outcome>

  /** One run of a measurement campaign: the pair `(basis, counts)`, read as `meas[i][0]` and `meas[i][1]`. */
  datatype Run = Run(basis: string, counts: Counts)
}
