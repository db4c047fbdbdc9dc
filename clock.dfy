/** Time in the model: integer ticks, one thousand per second. Clock
    readings arrive as inputs; only their differences are compared. */
module Clock {
  const TicksPerSecond: nat := 1000
}
