/**
 * One buffered log line: its message (at most 127 characters), its log level
 * and the time it was added, and whether it has been kept too long.
 */
module LogEntry {
  import opened Collaborators

  type U8 = x: nat | x < 256

  /** `LOG_STRUCT_MESSAGE_SIZE`: room for the message and its terminating NUL. */
  const LOG_STRUCT_MESSAGE_SIZE: nat := 128

  /** `LOG_BUFFER_EXPIRE` in milliseconds: 30000 on the ESP32, 5000 on the ESP8266. */
  function LogBufferExpire(esp32: bool): nat
  {
    if esp32 then 30000 else 5000
  }

  /** What `add` stores for a non-empty line: the line, cut to its first 127 characters. */
  function StoredMessage(line: string): (m: string)
    ensures m <= line
    ensures |m| == if |line| > LOG_STRUCT_MESSAGE_SIZE - 1 then LOG_STRUCT_MESSAGE_SIZE - 1 else |line|
  {
    if |line| > LOG_STRUCT_MESSAGE_SIZE - 1 then line[..LOG_STRUCT_MESSAGE_SIZE - 1] else line
  }

  /**
   * `timePassedSince(timestamp)` at time `now`: the difference of two 32-bit
   * `millis()` readings, taken modulo 2^32 and read as a signed 32-bit value.
   */
  function TimePassedSince(timestamp: U32, now: U32): (d: int)
    ensures -0x8000_0000 <= d < 0x8000_0000
  {
    var diff := (now - timestamp) % 0x1_0000_0000;
    if diff < 0x8000_0000 then diff else diff - 0x1_0000_0000
  }

  class LogEntry {
    /** `_message`. */
    var message: string
    /** `_loglevel`. */
    var loglevel: U8
    /** `_timestamp`, a `millis()` reading. */
    var timestamp: U32

    constructor()
      ensures message == "" && loglevel == 0 && timestamp == 0
    {
      message := "";
      loglevel := 0;
      timestamp := 0;
    }

    /**
     * `add(loglevel, line)`, both the copying and the moving overload; `now`
     * is the `millis()` reading.  An empty line is refused and changes nothing.
     */
    method Add(level: U8, line: string, now: U32) returns (added: bool)
      modifies this
      ensures added <==> |line| > 0
      ensures added ==> message == StoredMessage(line) && loglevel == level && timestamp == now
      ensures !added ==> message == old(message) && loglevel == old(loglevel) && timestamp == old(timestamp)
    {
      if |line| == 0 {
        return false;
      }
      if |line| > LOG_STRUCT_MESSAGE_SIZE - 1 {
        message := line[..LOG_STRUCT_MESSAGE_SIZE - 1];
      } else {
        message := line;
      }
      loglevel := level;
      timestamp := now;
      return true;
    }

    /** `clear()`: the message is empty and the level and time are zero. */
    method Clear()
      modifies this
      ensures message == "" && loglevel == 0 && timestamp == 0
    {
      message := "";
      timestamp := 0;
      loglevel := 0;
    }

    /** `isExpired()` at time `now`. */
    method IsExpired(now: U32, esp32: bool) returns (expired: bool)
      ensures expired <==> TimePassedSince(timestamp, now) >= LogBufferExpire(esp32) as int
    {
      expired := TimePassedSince(timestamp, now) >= LogBufferExpire(esp32) as int;
    }
  }

  /**
   * Across a wrap-around of the millisecond counter, an entry added `elapsed`
   * milliseconds ago (less than 2^31) is expired exactly when `elapsed` reaches
   * the expiry time.
   */
  lemma ExpiresAfterBufferTime(timestamp: U32, elapsed: nat, esp32: bool)
    requires elapsed < 0x8000_0000
    ensures TimePassedSince(timestamp, ((timestamp + elapsed) % 0x1_0000_0000) as U32) == elapsed
    ensures TimePassedSince(timestamp, ((timestamp + elapsed) % 0x1_0000_0000) as U32) >= LogBufferExpire(esp32) as int
        <==> elapsed >= LogBufferExpire(esp32)
  {
    var now := (timestamp + elapsed) % 0x1_0000_0000;
    if timestamp + elapsed < 0x1_0000_0000 {
      assert now - timestamp == elapsed;
    } else {
      assert now == timestamp + elapsed - 0x1_0000_0000;
      assert (now - timestamp) % 0x1_0000_0000 == elapsed;
    }
  }
}
