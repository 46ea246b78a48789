/** The layout of the shared frame buffer: what the producer computes, what the handshake carries in 32-bit
    fields, and what the consumer checks before it hands out a window of the buffer. */
module SlotGeometry {
  import opened Wrappers
  import Arithmetic

  const MAX_SLOTS := 32
  const MAX_BUFFER_SIZE := 128 * 1024 * 1024
  const TWO_32 := 0x1_0000_0000
  const TWO_64 := 0x1_0000_0000_0000_0000
  const TASK_MAGIC := 0x49513941

  datatype InitPacket = InitPacket(slotCount: nat, slotStride: nat, bufferSize: nat)

  datatype TaskPacket = TaskPacket(magic: nat, slotIndex: nat, width: nat, height: nat, channels: nat)

  datatype Frame = Frame(offset: nat, dataSize: nat)

  /** AlignUp for a power of two `alignment`. */
  function AlignUp(value: nat, alignment: nat): (r: nat)
    requires 0 < alignment
    ensures value <= r < value + alignment && r % alignment == 0
  {
    var units := (value + alignment - 1) / alignment;
    Arithmetic.DivModUnique(units * alignment, units, 0, alignment);
    units * alignment
  }

  /** A 32-bit field reinterpreted as int. */
  function AsInt(x: nat): int
    requires x < TWO_32
  {
    if x < TWO_32 / 2 then x else x - TWO_32
  }

  class Producer {
    var slotCount: nat
    var slotStride: nat
    var bufferSize: nat

    constructor ()
    {
      slotCount, slotStride, bufferSize := 0, 0, 0;
    }

    /** The size computations of DmaBufProducer::Init and SlotPool::Init, and the packet of the handshake.
        `width`, `height` and `slots` are ints of 32 bits. */
    method Init(width: int, height: int, slots: int) returns (packet: Option<InitPacket>)
      requires width < TWO_32 / 2 && height < TWO_32 / 2 && slots < TWO_32 / 2
      modifies this
      ensures packet.Some? <==>
                && 0 < width && 0 < height && slots <= MAX_SLOTS
                && AlignUp(width * height * 3, 4096) * (if slots <= 0 then 4 else slots) < TWO_64
      ensures packet.Some? ==>
                && 0 < slotCount <= MAX_SLOTS && slotStride == AlignUp(width * height * 3, 4096)
                && bufferSize == slotStride * slotCount
                && packet.value == InitPacket(slotCount, slotStride % TWO_32, bufferSize % TWO_32)
    {
      var count := if slots <= 0 then 4 else slots;
      if width <= 0 || height <= 0 {
        return None;
      }
      RawSizeBound(width, height);
      var stride := AlignUp(width * height * 3, 4096);
      if count > MAX_SLOTS {
        return None;
      }
      var size := stride * count % TWO_64;
      DivisionDetectsOverflow(stride, count);
      if size / count != stride {
        return None;
      }
      slotCount, slotStride, bufferSize := count, stride, size;
      return Some(InitPacket(count, stride % TWO_32, size % TWO_32));
    }
  }

  lemma RawSizeBound(width: nat, height: nat)
    requires width < TWO_32 / 2 && height < TWO_32 / 2
    ensures width * height * 3 < TWO_64 - 4096
  {
    assert width * height <= (TWO_32 / 2) * (TWO_32 / 2) by {
      assert width * height <= (TWO_32 / 2) * height;
    }
  }

  /** Dividing the wrapped product by the count gives the stride back exactly when the product did not wrap. */
  lemma DivisionDetectsOverflow(stride: nat, count: nat)
    requires 0 < count && stride < TWO_64
    ensures (stride * count % TWO_64) / count == stride <==> stride * count < TWO_64
    ensures stride * count < TWO_64 ==> stride * count % TWO_64 == stride * count
  {
    var product := stride * count;
    var size := product % TWO_64;
    assert size == (size / count) * count + size % count;
    if product < TWO_64 {
      Arithmetic.DivModUnique(product, stride, 0, count);
    }
  }

  class Consumer {
    var initialized: bool
    var slotCount: nat
    var slotStride: nat
    var bufferSize: nat

    ghost predicate Valid()
      reads this
    {
      initialized ==>
        && 0 < slotCount <= MAX_SLOTS && 0 < slotStride
        && slotStride * slotCount == bufferSize <= MAX_BUFFER_SIZE
    }

    constructor ()
      ensures Valid() && !initialized
    {
      initialized, slotCount, slotStride, bufferSize := false, 0, 0, 0;
    }

    /** The checks of DmaBufConsumer::Init. */
    method Init(packet: InitPacket) returns (ok: bool)
      requires Valid()
      requires packet.slotCount < TWO_32 && packet.slotStride < TWO_32 && packet.bufferSize < TWO_32
      modifies this
      ensures Valid()
      ensures ok <==> !old(initialized) && Acceptable(packet)
      ensures ok ==> initialized && InitPacket(slotCount, slotStride, bufferSize) == packet
      ensures !ok ==> unchanged(this)
    {
      if initialized {
        return false;
      }
      var count := AsInt(packet.slotCount);
      if count <= 0 || count > MAX_SLOTS {
        return false;
      }
      if packet.slotStride == 0 || packet.bufferSize == 0 || packet.bufferSize > MAX_BUFFER_SIZE {
        return false;
      }
      if packet.slotStride * count != packet.bufferSize {
        return false;
      }
      initialized, slotCount, slotStride, bufferSize := true, count, packet.slotStride, packet.bufferSize;
      return true;
    }

    /** DmaBufConsumer::MapFrame. The size is computed in 64 bits. Behind a successful Init the checks come down to
        the slot number and one comparison. */
    method MapFrame(packet: TaskPacket) returns (frame: Option<Frame>)
      requires Valid() && packet.slotIndex < TWO_32
      ensures frame.Some? <==>
                && initialized && packet.magic == TASK_MAGIC && packet.slotIndex < slotCount
                && 0 < RawSize(packet) <= slotStride
      ensures frame.Some? ==>
                && InSlot(frame.value, packet.slotIndex, slotStride) && InSlot(frame.value, 0, bufferSize)
                && frame.value == Frame(packet.slotIndex * slotStride, RawSize(packet))
    {
      if !initialized || packet.magic != TASK_MAGIC {
        return None;
      }
      var idx := AsInt(packet.slotIndex);
      if idx < 0 || idx >= slotCount {
        return None;
      }
      var rawSize := RawSize(packet);
      var offset := idx * slotStride;
      SlotInBuffer(idx, slotCount, slotStride);
      if rawSize == 0 || offset > bufferSize || rawSize > slotStride || offset + rawSize > bufferSize {
        return None;
      }
      return Some(Frame(offset, rawSize));
    }
  }

  predicate Acceptable(packet: InitPacket) {
    && 0 < packet.slotCount <= MAX_SLOTS && 0 < packet.slotStride
    && packet.slotStride * packet.slotCount == packet.bufferSize <= MAX_BUFFER_SIZE
  }

  function RawSize(packet: TaskPacket): (r: nat)
    ensures r < TWO_64
  {
    packet.width * packet.height * packet.channels % TWO_64
  }

  /** The frame lies in slot number `slot` of a buffer with slots of size `stride`. */
  ghost predicate InSlot(frame: Frame, slot: nat, stride: nat) {
    slot * stride <= frame.offset && frame.offset + frame.dataSize <= slot * stride + stride
  }

  lemma SlotInBuffer(slot: nat, count: nat, stride: nat)
    requires slot < count
    ensures 0 <= slot * stride && slot * stride + stride <= stride * count
  {
    assert (slot + 1) * stride <= count * stride;
  }

  /** Frames in different slots share no byte. */
  lemma SlotsAreDisjoint(f: Frame, g: Frame, i: nat, j: nat, stride: nat)
    requires InSlot(f, i, stride) && InSlot(g, j, stride) && i < j
    ensures f.offset + f.dataSize <= g.offset
  {
    assert (i + 1) * stride <= j * stride;
  }

  /** An accepted handshake gives the consumer the producer's geometry if and only if the producer's stride fits
      its 32-bit field. */
  lemma HandshakeAgreesIffStrideFits(count: nat, stride: nat)
    requires Acceptable(InitPacket(count, stride % TWO_32, stride * count % TWO_32))
    ensures stride % TWO_32 == stride && stride * count % TWO_32 == stride * count <==> stride < TWO_32
  {
    if stride < TWO_32 {
      assert stride % TWO_32 == stride;
    }
  }

  /** A frame of 1431655766 x 1 pixels: the stride is 4096 beyond 2^32, the consumer accepts the handshake and
      takes the slot for one of 4096 bytes. */
  lemma TruncatedStrideIsAccepted()
    ensures var stride := AlignUp(1431655766 * 1 * 3, 4096);
            && stride * 1 < TWO_64 && stride != stride % TWO_32 == 4096
            && Acceptable(InitPacket(1, stride % TWO_32, stride * 1 % TWO_32))
  {
  }

  /** With the dimensions the producer was initialised with, every slot number maps to the bytes the producer
      writes, 3 for each pixel. */
  lemma OwnFramesMap(width: nat, height: nat, count: nat, slot: nat)
    requires 0 < width && 0 < height && slot < count
    requires var stride := AlignUp(width * height * 3, 4096);
             stride < TWO_32 && Acceptable(InitPacket(count, stride % TWO_32, stride * count % TWO_32))
    ensures var stride := AlignUp(width * height * 3, 4096);
            var packet := TaskPacket(TASK_MAGIC, slot, width, height, 3);
            0 < RawSize(packet) == width * height * 3 <= stride % TWO_32
  {
    var raw := width * height * 3;
    assert 1 <= width * height by { assert 1 * 1 <= width * height; }
    assert raw % TWO_64 == raw;
  }

  /** RawSize is computed modulo 2^64, so a frame that MapFrame accepts has the stated dimensions exactly when
      their product fits 64 bits. */
  lemma SizeIsExactIffItFits(packet: TaskPacket)
    ensures RawSize(packet) == packet.width * packet.height * packet.channels
       <==> packet.width * packet.height * packet.channels < TWO_64
  {
    var raw := packet.width * packet.height * packet.channels;
    assert 0 <= packet.width * packet.height;
    assert 0 <= raw;
    if raw < TWO_64 {
      assert raw % TWO_64 == raw;
    }
  }

  /** With a width and a height that are non-negative ints of 32 bits, MapFrame's size is the product for all of them if
      and only if the packet has at most 4 channels. */
  lemma SizesExactIffFewChannels(channels: nat)
    ensures channels <= 4 <==>
              forall width: nat, height: nat :: width < TWO_32 / 2 && height < TWO_32 / 2 ==>
                RawSize(TaskPacket(TASK_MAGIC, 0, width, height, channels)) == width * height * channels
  {
    if channels <= 4 {
      forall width: nat, height: nat | width < TWO_32 / 2 && height < TWO_32 / 2
        ensures RawSize(TaskPacket(TASK_MAGIC, 0, width, height, channels)) == width * height * channels
      {
        PixelsBound(width, height, channels);
        SizeIsExactIffItFits(TaskPacket(TASK_MAGIC, 0, width, height, channels));
      }
    } else {
      var most: nat := TWO_32 / 2 - 1;
      assert most * most * 5 <= most * most * channels;
      SizeIsExactIffItFits(TaskPacket(TASK_MAGIC, 0, most, most, channels));
      assert RawSize(TaskPacket(TASK_MAGIC, 0, most, most, channels)) != most * most * channels;
    }
  }

  lemma PixelsBound(width: nat, height: nat, channels: nat)
    requires width < TWO_32 / 2 && height < TWO_32 / 2 && channels <= 4
    ensures width * height * channels < TWO_64
  {
    Arithmetic.ProductMonotone(width, height, TWO_32 / 2 - 1, TWO_32 / 2 - 1);
    Arithmetic.ProductMonotone(width * height, channels, (TWO_32 / 2 - 1) * (TWO_32 / 2 - 1), 4);
  }
}
