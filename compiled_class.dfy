/** Compiled classes: either loaded from an archive (`Existing`, bytes fixed) or produced by
    the current compile (`Runtime`, bytes written by the compiler into an output buffer),
    each with a mutable link to the source file it came from. */
module CompiledClasses {
  import opened Wrappers

  type Byte = bv8

  /** A Java source file: dotted class name, archive path and text. */
  datatype JavaSourceFile = JavaSourceFile(className: string, fileName: string, content: string)

  /** The `ByteArrayOutputStream` of a runtime class: an append-only byte buffer. */
  class ByteBuffer {
    var bytes: seq<Byte>

    constructor()
      ensures bytes == []
    {
      bytes := [];
    }

    /** `write(data)`: appends to what was written before. */
    method Write(data: seq<Byte>)
      modifies this
      ensures bytes == old(bytes) + data
    {
      bytes := bytes + data;
    }
  }

  datatype Variant = RuntimeClass | ExistingClass

  class CompiledClass {
    /** Fixed at construction. */
    const className: string
    const variant: Variant
    /** The bytes of an `Existing` class; empty for a `Runtime` one. */
    const existingBytes: seq<Byte>
    /** The output buffer of a `Runtime` class; null for an `Existing` one. */
    const outputStream: ByteBuffer?
    var source: Option<JavaSourceFile>

    ghost predicate Valid() {
      (variant == RuntimeClass) == (outputStream != null)
    }

    /** `CompiledClass.Runtime(className)`: an empty buffer and no source link. */
    constructor Runtime(name: string)
      ensures Valid() && variant == RuntimeClass && className == name
      ensures outputStream != null && fresh(outputStream) && outputStream.bytes == []
      ensures source == None
    {
      className := name;
      variant := RuntimeClass;
      existingBytes := [];
      outputStream := new ByteBuffer();
      source := None;
    }

    /** `CompiledClass.Existing(className, byteArray)`: exactly the given bytes and no
        source link. */
    constructor Existing(name: string, bytes: seq<Byte>)
      ensures Valid() && variant == ExistingClass && className == name
      ensures existingBytes == bytes && outputStream == null
      ensures source == None
    {
      className := name;
      variant := ExistingClass;
      existingBytes := bytes;
      outputStream := null;
      source := None;
    }

    /** `byteArray`: for a runtime class everything written to its buffer so far. */
    function ByteArray(): (r: seq<Byte>)
      requires Valid()
      reads outputStream
      ensures variant == ExistingClass ==> r == existingBytes
      ensures variant == RuntimeClass ==> r == outputStream.bytes
    {
      if outputStream != null then outputStream.bytes else existingBytes
    }

    /** `openOutputStream()`: the same buffer on every call for a runtime class; an
        existing class has none (the base file object throws). */
    method OpenOutputStream() returns (s: Option<ByteBuffer>)
      requires Valid()
      ensures variant == RuntimeClass <==> s.Some?
      ensures s.Some? ==> s.value == outputStream
    {
      if outputStream != null {
        s := Some(outputStream);
      } else {
        s := None;
      }
    }

    /** `openInputStream()`: the given bytes for an existing class; a runtime class has
        none (the base file object throws). */
    method OpenInputStream() returns (s: Option<seq<Byte>>)
      requires Valid()
      ensures variant == ExistingClass <==> s.Some?
      ensures s.Some? ==> s.value == existingBytes
    {
      if variant == ExistingClass {
        s := Some(existingBytes);
      } else {
        s := None;
      }
    }

    /** Assigns the source link. */
    method SetSource(file: Option<JavaSourceFile>)
      modifies this`source
      ensures source == file
    {
      source := file;
    }
  }

  /** Two writes through two `openOutputStream()` calls accumulate: the class's bytes are
      the concatenation of both. */
  method WriteTwice(c: CompiledClass, first: seq<Byte>, second: seq<Byte>)
    requires c.Valid() && c.variant == RuntimeClass
    modifies c.outputStream
    ensures c.ByteArray() == old(c.ByteArray()) + first + second
  {
    var s1 := c.OpenOutputStream();
    s1.value.Write(first);
    var s2 := c.OpenOutputStream();
    s2.value.Write(second);
  }
}
