/** The state one driver object holds between calls. */
module Handle {
  import opened Wrappers
  import opened Transport

  /** A physical three-axis sample (g or degrees per second). */
  datatype Vec3 = Vec3(x: real, y: real, z: real)

  const Zero: Vec3 := Vec3(0.0, 0.0, 0.0)

  /**
   * A driver object: how it is wired, the per-axis gyroscope drift measured by
   * the last successful calibration (`None` when it is NaN), and whether FIFO
   * mode was requested at start-up.
   */
  datatype Driver = Driver(binding: Binding, drift: Option<Vec3>, fifoEnabled: bool)
}
