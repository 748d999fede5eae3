// The 32-bit machine.
module Machine {
  /** `size_t`, `uint32_t` and `unsigned int`. */
  type Word = w: int | 0 <= w < 0x1_0000_0000

  /** A C string in memory. */
  type CText = s: string | '\0' !in s witness []
}
