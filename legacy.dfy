/**
 * The pause settings of the two older model generations (src/model/model.go
 * and model/model.go): there a channel's pauses are plain integers, and a
 * value that is zero or negative (an absent JSON field decodes as zero)
 * falls back to a default. Both files define the same constants and getters.
 */
module LegacyPauses {

  const DefaultCyclePollPause: int := 100
  const DefaultRegisterPollPause: int := 10

  /** The two pause fields of an older-generation Channel. */
  datatype Pauses = Pauses(cyclePause: int, registerPause: int)

  /** Channel.GetCyclePause: the configured pause when positive, 100 otherwise. */
  function GetCyclePause(c: Pauses): (p: int)
    ensures p > 0
    ensures c.cyclePause <= 0 ==> p == 100
    ensures c.cyclePause > 0 ==> p == c.cyclePause
  {
    if c.cyclePause <= 0 then DefaultCyclePollPause else c.cyclePause
  }

  /** Channel.GetRegisterPause: the configured pause when positive, 10 otherwise. */
  function GetRegisterPause(c: Pauses): (p: int)
    ensures p > 0
    ensures c.registerPause <= 0 ==> p == 10
    ensures c.registerPause > 0 ==> p == c.registerPause
  {
    if c.registerPause <= 0 then DefaultRegisterPollPause else c.registerPause
  }

  /** Writing a getter's answer back into the channel changes nothing: every answer is a setting it keeps. */
  lemma PausesIdempotent(c: Pauses)
    ensures GetCyclePause(Pauses(GetCyclePause(c), c.registerPause)) == GetCyclePause(c)
    ensures GetRegisterPause(Pauses(c.cyclePause, GetRegisterPause(c))) == GetRegisterPause(c)
  {
  }

  /** Each getter looks only at its own field. */
  lemma PausesIndependent(c: Pauses, cycle: int, register: int)
    ensures GetCyclePause(Pauses(c.cyclePause, register)) == GetCyclePause(c)
    ensures GetRegisterPause(Pauses(cycle, c.registerPause)) == GetRegisterPause(c)
  {
  }

  /** A setting is kept exactly when it is positive. */
  lemma PausesKeptIff(c: Pauses)
    ensures GetCyclePause(c) == c.cyclePause <==> c.cyclePause > 0
    ensures GetRegisterPause(c) == c.registerPause <==> c.registerPause > 0
  {
  }
}
