/** The figures of core1's frame (src/core1_frame.h): its period, and the slot that
    opens it. */
module Core1Frame {

  const LOOP_PERIOD_US := 10_000
  const FRAME_WRITER_US := 3_000
}
