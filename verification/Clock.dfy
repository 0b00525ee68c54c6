/** The PLC's date and time as eight BCD bytes. */
module Clock {
  import opened Bytes
  import opened Store

  datatype PlcDateTime = PlcDateTime(
    year: u16,
    month: u8,
    day: u8,
    hour: u8,
    minute: u8,
    second: u8,
    millisecond: u16,
    weekday: u8)

  /** Two decimal digits in two nibbles; a tens digit above 15 loses its high bits. */
  function ToBcd(v: u8): u8 { v / 10 % 16 * 16 + v % 10 }

  function FromBcd(v: u8): u8 { v / 16 * 10 + v % 16 }

  lemma BcdRoundTrip(v: u8)
    ensures FromBcd(ToBcd(v)) == v <==> v < 160
    ensures FromBcd(ToBcd(v)) < 160
  {
  }

  function MillisHigh(ms: u16): u8 { Low8(ms / 10) }

  /** The last digit of the milliseconds above the weekday. */
  function LastByte(ms: u16, weekday: u8): u8 { ms % 10 * 16 + weekday % 16 }

  function DateBytes(dt: PlcDateTime): ClockBytes {
    [ToBcd(dt.year % 100), ToBcd(dt.month), ToBcd(dt.day), ToBcd(dt.hour), ToBcd(dt.minute), ToBcd(dt.second),
     ToBcd(MillisHigh(dt.millisecond)), LastByte(dt.millisecond, dt.weekday)]
  }

  /** Two-digit years from 90 on belong to the last century. */
  function Century(y: u8): u16 { if y >= 90 then 1900 + y as int else 2000 + y as int }

  function ParseDate(s: seq<u8>): (r: Result<PlcDateTime, ProtoError>) {
    if |s| < 8 then Err(BufferTooShort(8, |s|))
    else
      Ok(PlcDateTime(
           Century(FromBcd(s[0])), FromBcd(s[1]), FromBcd(s[2]), FromBcd(s[3]), FromBcd(s[4]), FromBcd(s[5]),
           FromBcd(s[6]) as int * 10 + s[7] / 16, s[7] % 16))
  }

  method EncodeDate(dt: PlcDateTime, buf: Buffer)
    modifies buf
    ensures buf.data == old(buf.data) + DateBytes(dt)
  {
    hide ToBcd, MillisHigh, LastByte;
    buf.PutU8(ToBcd(dt.year % 100));
    buf.PutU8(ToBcd(dt.month));
    buf.PutU8(ToBcd(dt.day));
    buf.PutU8(ToBcd(dt.hour));
    buf.PutU8(ToBcd(dt.minute));
    buf.PutU8(ToBcd(dt.second));
    buf.PutU8(ToBcd(MillisHigh(dt.millisecond)));
    buf.PutU8(LastByte(dt.millisecond, dt.weekday));
  }

  method DecodeDate(buf: Buffer) returns (r: Result<PlcDateTime, ProtoError>)
    modifies buf
    ensures r == ParseDate(old(buf.data))
  {
    hide FromBcd;
    if |buf.data| < 8 {
      return Err(BufferTooShort(8, |buf.data|));
    }
    var y := buf.GetU8();
    var month := buf.GetU8();
    var day := buf.GetU8();
    var hour := buf.GetU8();
    var minute := buf.GetU8();
    var second := buf.GetU8();
    var ms1 := buf.GetU8();
    var ms2 := buf.GetU8();
    BcdIsSmall(ms1);
    r := Ok(PlcDateTime(Century(FromBcd(y)), FromBcd(month), FromBcd(day), FromBcd(hour), FromBcd(minute),
                        FromBcd(second), FromBcd(ms1) as int * 10 + ms2 / 16, ms2 % 16));
  }

  lemma BcdIsSmall(v: u8)
    ensures FromBcd(v) <= 165
  {
  }

  /** The date-times the eight bytes can hold. The BCD nibbles reach up to 159, beyond two decimal digits. */
  predicate Representable(dt: PlcDateTime) {
    && 1990 <= dt.year <= 2089
    && dt.month < 160 && dt.day < 160 && dt.hour < 160 && dt.minute < 160 && dt.second < 160
    && dt.millisecond < 1600
    && dt.weekday < 16
  }

  /** Exactly the representable date-times survive encoding and decoding. */
  lemma DateRoundTrip(dt: PlcDateTime, rest: seq<u8>)
    ensures ParseDate(DateBytes(dt) + rest) == Ok(dt) <==> Representable(dt)
  {
    hide ToBcd, FromBcd, MillisHigh, Century, LastByte;
    BcdRoundTrip(dt.month);
    BcdRoundTrip(dt.day);
    BcdRoundTrip(dt.hour);
    BcdRoundTrip(dt.minute);
    BcdRoundTrip(dt.second);
    YearRoundTrip(dt.year);
    MillisRoundTrip(dt.millisecond, dt.weekday);
  }

  lemma YearRoundTrip(year: u16)
    ensures Century(FromBcd(ToBcd(year % 100))) == year <==> 1990 <= year <= 2089
  {
    hide ToBcd, FromBcd;
    BcdRoundTrip(year % 100);
  }

  lemma MillisRoundTrip(ms: u16, weekday: u8)
    ensures FromBcd(ToBcd(MillisHigh(ms))) as int * 10 + LastByte(ms, weekday) / 16 == ms <==> ms < 1600
    ensures LastByte(ms, weekday) % 16 == weekday % 16
  {
    hide ToBcd, FromBcd;
    var digit := ms % 10;
    assert LastByte(ms, weekday) / 16 == digit && LastByte(ms, weekday) % 16 == weekday % 16 by {
      assert weekday % 16 < 16;
    }
    BcdRoundTrip(MillisHigh(ms));
    assert ms == ms / 10 * 10 + digit;
  }
}
