/** The one-line summary of a machine's specs that the command-line client
    prints (packages/cli/src/utils/specs.ts, `formatSpecs`). Turning a number
    into text is JavaScript's own conversion, a parameter `show` here. */
module SpecsFormat {
  import opened Common

  /** `MachineSpecs`: the CPU and RAM are always known; the GPU and its VRAM may not be. */
  datatype MachineSpecs = MachineSpecs(cpu: string, ram: real, gpu: Option<string>, vram: Option<real>)

  /** `if (specs.gpu)`: present and not the empty string. */
  predicate HasGpu(specs: MachineSpecs) {
    specs.gpu.Some? && specs.gpu.value != ""
  }

  /** `if (specs.vram)`: present and not zero. */
  predicate HasVram(specs: MachineSpecs) {
    specs.vram.Some? && specs.vram.value != 0.0
  }

  function CpuRamPart(specs: MachineSpecs, show: real -> string): string {
    "CPU: " + specs.cpu + " | " + ("RAM: " + show(specs.ram) + "GB")
  }

  function GpuPart(specs: MachineSpecs): string {
    if HasGpu(specs) then " | " + ("GPU: " + specs.gpu.value) else ""
  }

  function VramPart(specs: MachineSpecs, show: real -> string): string {
    if HasVram(specs) then " | " + ("VRAM: " + show(specs.vram.value) + "GB") else ""
  }

  /** The summary as the parts are meant to read: CPU and RAM always, then the
      GPU and the VRAM when known, in that order, separated by `" | "`. */
  function SpecsLine(specs: MachineSpecs, show: real -> string): string {
    CpuRamPart(specs, show) + GpuPart(specs) + VramPart(specs, show)
  }

  /** `parts.join(" | ")` after one more part is pushed. */
  lemma {:induction false} JoinSnoc(parts: seq<string>, part: string, sep: string)
    requires |parts| > 0
    ensures Join(parts + [part], sep) == Join(parts, sep) + (sep + part)
    decreases |parts|
  {
    if |parts| == 1 {
      assert (parts + [part])[1..] == [part];
    } else {
      assert (parts + [part])[1..] == parts[1..] + [part];
      JoinSnoc(parts[1..], part, sep);
    }
  }

  lemma {:induction false} JoinPair(parts: seq<string>, sep: string)
    requires |parts| == 2
    ensures Join(parts, sep) == parts[0] + sep + parts[1]
  {
    assert parts[1..] == [parts[1]];
  }

  /** `formatSpecs`: the parts array grown by `push`, then joined. */
  method FormatSpecs(specs: MachineSpecs, show: real -> string) returns (r: string)
    ensures r == SpecsLine(specs, show)
  {
    var parts := ["CPU: " + specs.cpu, "RAM: " + show(specs.ram) + "GB"];
    JoinPair(parts, " | ");
    assert Join(parts, " | ") == CpuRamPart(specs, show);
    if specs.gpu.Some? && specs.gpu.value != "" {
      var part := "GPU: " + specs.gpu.value;
      JoinSnoc(parts, part, " | ");
      parts := parts + [part];
    }
    assert Join(parts, " | ") == CpuRamPart(specs, show) + GpuPart(specs);
    if specs.vram.Some? && specs.vram.value != 0.0 {
      var part := "VRAM: " + show(specs.vram.value) + "GB";
      JoinSnoc(parts, part, " | ");
      parts := parts + [part];
    }
    r := Join(parts, " | ");
  }

  /** The summary always opens with the CPU and the RAM. */
  lemma {:induction false} SpecsLineStartsWithCpuRam(specs: MachineSpecs, show: real -> string)
    ensures StartsWith(SpecsLine(specs, show), "CPU: " + specs.cpu + " | RAM: " + show(specs.ram) + "GB")
  {
    var head, tail := CpuRamPart(specs, show), GpuPart(specs) + VramPart(specs, show);
    var cpu, ram := "CPU: " + specs.cpu, show(specs.ram);
    assert " | RAM: " == " | " + "RAM: ";
    assert head == cpu + " | RAM: " + ram + "GB";
    assert SpecsLine(specs, show) == head + tail;
    StartsWithConcat(head, tail);
  }

  /** The GPU part is there exactly when the GPU is known and named: the
      summary is longer by exactly that part, and by the VRAM part exactly
      when the VRAM is known and not zero. */
  lemma SpecsLineLength(specs: MachineSpecs, show: real -> string)
    ensures |SpecsLine(specs, show)| ==
      |"CPU: " + specs.cpu + " | RAM: " + show(specs.ram) + "GB"|
      + (if HasGpu(specs) then 8 + |specs.gpu.value| else 0)
      + (if HasVram(specs) then 11 + |show(specs.vram.value)| else 0)
  {
  }

  /** A zero VRAM and an empty GPU name read as unknown. */
  lemma FalsyPartsOmitted(cpu: string, ram: real, show: real -> string)
    ensures SpecsLine(MachineSpecs(cpu, ram, Some(""), Some(0.0)), show)
      == SpecsLine(MachineSpecs(cpu, ram, None, None), show)
  {
  }
}
