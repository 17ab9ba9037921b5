/** Value types shared by the analytics of the AI service (src/services/aiService.js). */
module Carbon {

  /** One entry of an emissions history: `date` is carried through untouched,
      `emissions` (tonnes of CO2) is the only value the analytics read.
      A JavaScript double is modelled as a Dafny `real`. */
  datatype Sample = Sample(date: string, emissions: real)

  /** The three-step scale the service writes as 'low', 'medium' and 'high':
      anomaly severities, recommendation impacts and recommendation costs. */
  datatype Level = Low | Medium | High

  /** A number as the service's arithmetic can leave it when evaluated over the
      reals: a finite value, or NaN (what 0 / 0 gives, e.g. the mean of an empty
      history). Every comparison with NaN is false. */
  datatype Num = NaN | Real(value: real)
}
