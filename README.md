# HelenOS kernel helper macros and HD Audio attach, in Dafny

This project models two pieces of HelenOS and proves properties of them.

- `macros.dfy`, module `Macros`, models the generic helper macros of
  `kernel/generic/include/macros.h`:
  - `overlaps()`, the half-open interval test whose end addresses are
    computed in `uintptr_t`;
  - `min`, `max`, `min3` and `max3`;
  - the KB/MB size shifts;
  - the ASCII character classes;
  - the `RANDI` linear congruential generator.

  `uintptr_t` and `size_t` are unsigned integers of the machine width, 32 or
  64 bits (`Width`). A value of either type is a `nat` below `Modulus(w)`. Every
  sum, product or left shift that C computes in those types is reduced modulo
  2^w by `Wrap`. `RANDI` assigns to its argument, so the seed is a field of the
  class `LcgSeed` and `Randi` is a method that updates it.

- `hdaudio.dfy`, module `HdAudio`, models how the High Definition Audio driver
  (`uspace/drv/audio/hdaudio/hdaudio.c`) attaches to and detaches from a
  device:
  - the static interrupt program `hdaudio_irq_pio_ranges` /
    `hdaudio_irq_commands` / `hdaudio_irq_code`, a class `IrqTables` holding
    two arrays;
  - its in-place patching for the device (`IrqTables.Patch`);
  - `hda_dev_add` with all its checks and `goto error` exits;
  - `hda_dev_remove`.

  The program reads RIRBSTS, ANDs it with the RINTFL bit, applies a predicate,
  writes the bit back to acknowledge it, and accepts. RIRBSTS is at offset 0x5D
  of the register block and RINTFL is its bit 0 (section 3.3 of the Intel High
  Definition Audio Specification, rev. 1.0a).

  The driver framework, the kernel and the controller code of `hdactl.c` are
  reached only through the methods of class `Ddf`. A `Script` fixes each of
  their answers in advance, and any answer is allowed. Each call is appended to
  `Ddf.trace`.

  The outcome of an attach is specified by three functions of the script:
  - `AttachStage`: the check at which `hda_dev_add` stops;
  - `AttachResult`: the code it returns;
  - `AttachTrace`: the calls it makes.

  `hda_dev_add` is one C function. In the model it is five consecutive methods,
  one per phase, and each calls the next: `HdaDevAdd`, `CheckResources`,
  `EnableRegisters`, `RegisterInterrupt` and `CreateFunctionA`. Each of them
  promises the result, the call trace and the soft state of the whole
  function, and the phases that may patch the tables also promise their final
  contents. So the split changes neither the order of the steps nor what is
  promised.

## Model

| member | source | states |
|---|---|---|
| Macros.Overlaps | kernel/generic/include/macros.h:49-55 | overlaps() with its end addresses wrapped modulo 2^w never reports a pair whose exact intervals are apart, and agrees with the exact test whenever neither end address wraps |
| Macros.ExactOverlapsIffSharedAddress | kernel/generic/include/macros.h:42 | the exact test that the doc comment describes holds for two non-empty intervals exactly when some address lies in both, wherever they lie |
| Macros.OverlapsMissesIntervalEndingAtTop | kernel/generic/include/macros.h:42-55 | as written, the 32-bit intervals [0xFFFF_F000, 2^32) and [0xFFFF_F800, 0xFFFF_F810) share 0xFFFF_F800, yet overlaps() returns false because the first end address wraps to 0 |
| Macros.OverlapsSymmetric | kernel/generic/include/macros.h:49-55 | overlaps() gives the same answer with the two intervals swapped, wrap-around included |
| Macros.AdjacentDoNotOverlap | kernel/generic/include/macros.h:49-55 | an interval that starts at the other's (wrapped) end address does not overlap it, in either order |
| Macros.EmptyIntervalsDoNotOverlap | kernel/generic/include/macros.h:49-55 | two zero-size intervals never overlap |
| Macros.SelfOverlap | kernel/generic/include/macros.h:49-55 | an interval overlaps itself if and only if it is non-empty and s + sz does not wrap past 2^w |
| Macros.OverlapsIffSharedAddress | kernel/generic/include/macros.h:42-55 | for non-empty intervals that do not wrap, overlaps() holds exactly when some address lies in both |
| Macros.EmptyIntervalInsideOverlaps | kernel/generic/include/macros.h:49-55 | a zero-size interval at a point strictly inside another interval overlaps it |
| Macros.IsDigit | kernel/generic/include/macros.h:59 | true exactly for the characters '0' to '9' |
| Macros.IsLower | kernel/generic/include/macros.h:60 | true exactly for the 26 letters 'a' to 'z' |
| Macros.IsUpper | kernel/generic/include/macros.h:61 | true exactly for the 26 letters 'A' to 'Z' |
| Macros.IsSpace | kernel/generic/include/macros.h:64-65 | true exactly for space, tab, LF and CR, and then the character is no digit and no letter |
| Macros.CharClassesDisjoint | kernel/generic/include/macros.h:59-65 | no character is in two of the classes digit, lower, upper and space |
| Macros.Min | kernel/generic/include/macros.h:67 | the result is one of the arguments and no greater than either |
| Macros.Max | kernel/generic/include/macros.h:68 | the result is one of the arguments and no less than either |
| Macros.Min3 | kernel/generic/include/macros.h:70 | the result is one of the three arguments and no greater than any of them, so it is their minimum |
| Macros.Max3 | kernel/generic/include/macros.h:71 | the result is one of the three arguments and no less than any of them, so it is their maximum |
| Macros.ShiftRight | kernel/generic/include/macros.h:77-78 | x >> n on an unsigned operand is the floor of x / 2^n: r * 2^n <= x < (r + 1) * 2^n |
| Macros.ShiftLeft | kernel/generic/include/macros.h:80-81 | x << n in size_t is congruent to x * 2^n modulo 2^w and fits in the width, and equals x * 2^n when that fits |
| Macros.SizeToKb | kernel/generic/include/macros.h:77 | size >> 10 is the floor of size / 1024: kb * 1024 <= size < (kb + 1) * 1024 |
| Macros.SizeToMb | kernel/generic/include/macros.h:78 | size >> 20 is the floor of size / 2^20 |
| Macros.KbToSize | kernel/generic/include/macros.h:80 | kb << 10 in size_t is a word-size multiple of 1024, equal to kb * 1024 when that does not overflow |
| Macros.MbToSize | kernel/generic/include/macros.h:81 | mb << 20 in size_t is a word-size multiple of 2^20, equal to mb * 2^20 when that does not overflow |
| Macros.ShiftRoundTrip | kernel/generic/include/macros.h:77-81 | shifting left by n and back right by n gives back x whenever x * 2^n fits in the width |
| Macros.KbRoundTrip | kernel/generic/include/macros.h:77-80 | SIZE2KB(KB2SIZE(kb)) == kb whenever kb << 10 does not overflow |
| Macros.MbRoundTrip | kernel/generic/include/macros.h:78-81 | SIZE2MB(MB2SIZE(mb)) == mb whenever mb << 20 does not overflow |
| Macros.KbRoundsDown | kernel/generic/include/macros.h:77-80 | KB2SIZE(SIZE2KB(size)) rounds size down to a whole KB |
| Macros.MbRoundsDown | kernel/generic/include/macros.h:78-81 | MB2SIZE(SIZE2MB(size)) rounds size down to a whole MB |
| Macros.LcgStep | kernel/generic/include/macros.h:92-94 | the new seed, 1103515245 * seed + 12345 reduced modulo 2^w, is again a w-bit value |
| Macros.LcgUnstepUndoesStep | kernel/generic/include/macros.h:86-94 | the step is injective on w-bit seeds: multiplying by the inverse of 1103515245 modulo 2^w recovers the old seed |
| Macros.LcgStepUndoesUnstep | kernel/generic/include/macros.h:86-94 | the step is onto: every w-bit value is the successor of some seed, so the step permutes the 2^w states |
| Macros.LcgLowBitAlternates | kernel/generic/include/macros.h:92-94 | the low bit of the seed flips on every step |
| Macros.LcgSeed.Randi | kernel/generic/include/macros.h:92-96 | RANDI replaces the seed by its successor and yields the new value |
| HdAudio.BitV8 | uspace/drv/audio/hdaudio/hdaudio.c:88 | BIT_V(uint8_t, bit) is a byte with exactly one bit set |
| HdAudio.StaticRanges | uspace/drv/audio/hdaudio/hdaudio.c:73-78 | the static range table has one range, its base left NULL for the driver and its size large enough to hold RIRBSTS |
| HdAudio.StaticCommands | uspace/drv/audio/hdaudio/hdaudio.c:80-105 | the static program has five commands ending in ACCEPT, every address left NULL for the driver |
| HdAudio.WellWired | uspace/drv/audio/hdaudio/hdaudio.c:73-112 | a consistent program's AND mask is a byte with a single bit set |
| HdAudio.StaticTablesWellWired | uspace/drv/audio/hdaudio/hdaudio.c:73-112 | the static tables as initialised: one range and five commands, counted from the arrays, ending in ACCEPT. The read and the acknowledgment share one address. The AND mask and the acknowledged value are the same single bit. The slots are wired read to slot 2, AND from 2 to 3, predicate from 3 |
| HdAudio.IrqTables.constructor | uspace/drv/audio/hdaudio/hdaudio.c:73-112 | the arrays hold the static contents, and rangecount and cmdcount are their lengths |
| HdAudio.RirbStsAddress | uspace/drv/audio/hdaudio/hdaudio.c:183-186 | &rphys->rirbsts is a uintptr_t value, rwbase cast to uintptr_t plus 0x5D when that does not wrap |
| HdAudio.PatchedRanges | uspace/drv/audio/hdaudio/hdaudio.c:184 | range 0 gets the register base as its base; the table keeps its length |
| HdAudio.PatchedCommands | uspace/drv/audio/hdaudio/hdaudio.c:185-186 | commands 0 and 3 both get the RIRBSTS address; the table keeps its length |
| HdAudio.PatchChangesOnlyAddresses | uspace/drv/audio/hdaudio/hdaudio.c:183-186 | patching changes nothing but range 0's base and the addresses of commands 0 and 3 |
| HdAudio.PatchKeepsWiring | uspace/drv/audio/hdaudio/hdaudio.c:183-186 | a consistent program stays consistent when patched, and its read and acknowledgment both address RIRBSTS of the device |
| HdAudio.PatchedAccessInRange | uspace/drv/audio/hdaudio/hdaudio.c:183-186 | when range 0 does not wrap, the byte read and acknowledged lies inside range 0, by address comparison, by overlaps() and by the exact test |
| HdAudio.IrqTables.Patch | uspace/drv/audio/hdaudio/hdaudio.c:183-186 | the arrays are patched in place to exactly PatchedRanges / PatchedCommands of their old contents, and stay consistent |
| HdAudio.Hda.Zeroed | uspace/drv/audio/hdaudio/hdaudio.c:124 | freshly allocated soft state is zero: no session, no mapping, no controller, no function |
| HdAudio.Ddf.DevDataAlloc | uspace/drv/audio/hdaudio/hdaudio.c:124 | on success, a fresh zeroed soft state is attached to the device; on failure, NULL and the device is unchanged |
| HdAudio.Ddf.ParentSessCreate | uspace/drv/audio/hdaudio/hdaudio.c:132-133 | records ddf_dev_parent_sess_create; hda->parent_sess is set exactly when the scripted call succeeds |
| HdAudio.Ddf.HwResGetListParsed | uspace/drv/audio/hdaudio/hdaudio.c:142 | records hw_res_get_list_parsed and answers the scripted code and resource list |
| HdAudio.Ddf.PioEnable | uspace/drv/audio/hdaudio/hdaudio.c:167 | records pio_enable with its base and size and answers the scripted code and mapping |
| HdAudio.Ddf.RegisterInterruptHandler | uspace/drv/audio/hdaudio/hdaudio.c:191-192 | records the IRQ and the tables' contents at the moment of the call |
| HdAudio.Ddf.CtlInit | uspace/drv/audio/hdaudio/hdaudio.c:199 | records hda_ctl_init; only it can set hda->ctl |
| HdAudio.Ddf.FunCreate | uspace/drv/audio/hdaudio/hdaudio.c:205 | records ddf_fun_create with the name, and answers the scripted function or NULL |
| HdAudio.Ddf.FunBind | uspace/drv/audio/hdaudio/hdaudio.c:214 | records ddf_fun_bind of the function and answers the scripted code |
| HdAudio.Ddf.FunDestroy | uspace/drv/audio/hdaudio/hdaudio.c:217 | records ddf_fun_destroy of the function |
| HdAudio.Ddf.FunAddToCategory | uspace/drv/audio/hdaudio/hdaudio.c:221 | records ddf_fun_add_to_category with the function and the category name |
| HdAudio.Ddf.CtlFini | uspace/drv/audio/hdaudio/hdaudio.c:226 | records hda_ctl_fini |
| HdAudio.Ddf.FunOffline | uspace/drv/audio/hdaudio/hdaudio.c:241 | records ddf_fun_offline of the function and answers the scripted code |
| HdAudio.Ddf.FunUnbind | uspace/drv/audio/hdaudio/hdaudio.c:245 | records ddf_fun_unbind of the function and answers the scripted code |
| HdAudio.AttachStage | uspace/drv/audio/hdaudio/hdaudio.c:114-222 | the check at which hda_dev_add stops: it attaches exactly when every step succeeds with one memory range large enough for the registers and one IRQ; the range size and the IRQ count are only looked at once there is exactly one memory range |
| HdAudio.AttachTrace | uspace/drv/audio/hdaudio/hdaudio.c:114-231 | hda_dev_add makes at least one call and at most ten |
| HdAudio.AttachTraceLength | uspace/drv/audio/hdaudio/hdaudio.c:199-227 | nine calls on success; nine or ten when binding fails, ten only when hda_ctl_init left hda->ctl set so that the error exit also calls hda_ctl_fini |
| HdAudio.AttachTraceExtendsBefore | uspace/drv/audio/hdaudio/hdaudio.c:114-126 | hda_dev_add only appends to the calls made before it, and its first call is ddf_dev_data_alloc |
| HdAudio.AttachResult | uspace/drv/audio/hdaudio/hdaudio.c:114-231 | the code hda_dev_add returns: EOK exactly when it attached or stopped at the IRQ count; EINVAL for a wrong memory-range count or a range that is too small |
| HdAudio.IntendedAttachResult | uspace/drv/audio/hdaudio/hdaudio.c:176-180 | corrected result: EOK exactly when the device attached; EINVAL for a wrong memory-range count, a range that is too small, or a wrong IRQ count |
| HdAudio.MemRangeCountRejected | uspace/drv/audio/hdaudio/hdaudio.c:148-152 | a resource list without exactly one memory range gives EINVAL, and nothing is called after reading the list |
| HdAudio.RangeTooSmallRejected | uspace/drv/audio/hdaudio/hdaudio.c:160-167 | a range smaller than sizeof(hda_regs_t) gives EINVAL, and PIO is never enabled |
| HdAudio.PioEnabledOnlyForValidRange | uspace/drv/audio/hdaudio/hdaudio.c:148-167 | every pio_enable call follows a single, large enough memory range and maps exactly that range |
| HdAudio.IrqCountMismatchReportsSuccess | uspace/drv/audio/hdaudio/hdaudio.c:166-180 | as written, a wrong IRQ count after a successful pio_enable returns EOK, with no handler registered and no function created |
| HdAudio.NoIrqAttachesWithoutHandler | uspace/drv/audio/hdaudio/hdaudio.c:176-180 | a concrete device with no IRQ: hda_dev_add returns EOK and registers no handler |
| HdAudio.IntendedDiffersOnlyOnIrqCount | uspace/drv/audio/hdaudio/hdaudio.c:176-180 | the corrected result differs from the one as written exactly when the IRQ count is wrong |
| HdAudio.OnlyRegisterCallRegisters | uspace/drv/audio/hdaudio/hdaudio.c:176-192 | a registration happens only after the IRQ count check passed, and it is the registration of the patched tables |
| HdAudio.RegisteredProgramConsistent | uspace/drv/audio/hdaudio/hdaudio.c:183-197 | the kernel is handed the device's single IRQ and a consistent program whose range 0 starts at the register base and whose read and acknowledgment address RIRBSTS |
| HdAudio.CtlFiniOnlyWithCtl | uspace/drv/audio/hdaudio/hdaudio.c:223-227 | hda_ctl_fini is called if and only if hda_dev_add fails with hda and hda->ctl non-NULL |
| HdAudio.NoCtlFiniWithoutCtl | uspace/drv/audio/hdaudio/hdaudio.c:223-227 | with hda->ctl NULL, or on success, hda_ctl_fini is never called |
| HdAudio.ErrorExit | uspace/drv/audio/hdaudio/hdaudio.c:223-230 | the error exit calls hda_ctl_fini exactly when hda and hda->ctl are non-NULL |
| HdAudio.HdaDevAdd | uspace/drv/audio/hdaudio/hdaudio.c:114-231 | hda_dev_add returns AttachResult and makes exactly the calls of AttachTrace. It patches the tables once the IRQ count check passed and otherwise leaves them alone. The soft state it attaches is fresh and holds the session, range, mapping, controller and function each step produced; rwbase and rwsize stay zero on the exits before the memory range is recorded |
| HdAudio.CheckResources | uspace/drv/audio/hdaudio/hdaudio.c:140-155 | the resource-list phase: list failure and a wrong range count exit with the codes of AttachResult and leave rwbase and rwsize zero; otherwise both are recorded from the single range |
| HdAudio.EnableRegisters | uspace/drv/audio/hdaudio/hdaudio.c:160-180 | the size check, pio_enable and the IRQ count check; the IRQ count exit keeps pio_enable's rc |
| HdAudio.RegisterInterrupt | uspace/drv/audio/hdaudio/hdaudio.c:183-202 | patches the tables, registers them, starts the controller; failures exit with the code of AttachResult |
| HdAudio.CreateFunctionA | uspace/drv/audio/hdaudio/hdaudio.c:204-222 | creates function 'a', binds it (destroying it if binding fails) and adds it to category "virtual" |
| HdAudio.RemoveResult | uspace/drv/audio/hdaudio/hdaudio.c:233-251 | EOK exactly when there is no function 'a' or both offlining and unbinding succeed; otherwise the first failure |
| HdAudio.RemoveTrace | uspace/drv/audio/hdaudio/hdaudio.c:240-248 | no call without function 'a'; otherwise offline first, then unbind if and only if offlining succeeded |
| HdAudio.HdaDevRemove | uspace/drv/audio/hdaudio/hdaudio.c:233-251 | hda_dev_remove returns RemoveResult and makes exactly the calls of RemoveTrace |
| HdAudio.GoneResult | uspace/drv/audio/hdaudio/hdaudio.c:253-267 | EOK exactly when there is no function 'a' or unbinding succeeds; otherwise unbinding's code |
| HdAudio.GoneTrace | uspace/drv/audio/hdaudio/hdaudio.c:260-264 | no call without function 'a'; otherwise only the unbinding of that function, never an offlining |
| HdAudio.GoneIsRemoveWithoutOffline | uspace/drv/audio/hdaudio/hdaudio.c:233-267 | hda_dev_gone returns what hda_dev_remove returns when offlining succeeds, and makes the same calls minus the offlining |
| HdAudio.HdaDevGone | uspace/drv/audio/hdaudio/hdaudio.c:253-267 | hda_dev_gone returns GoneResult and makes exactly the calls of GoneTrace |

## Left out

- `isalpha` and `isalphanum` (macros.h:62-63) are left out. They call `is_lower`, `is_upper`, `is_alpha` and `is_digit`, which the header does not define.
- `PA_overlaps` is left out because it depends on the architecture's `KA2PA`.
- `STRING` and `STRING_ARG` are left out because they only work in the preprocessor.
- Macros.Min, Macros.Max, Macros.Min3 and Macros.Max3 are stated on mathematical integers. The C macros compare values of whatever type they are given.
- Macros.KbToSize and Macros.MbToSize assume a `size_t` operand. An operand of a narrower type wraps earlier, and a negative signed operand is undefined in C; neither is modelled.
- Macros.ShiftRight is `x / 2^n` on a non-negative operand. A shift by the width or more, which is undefined in C, is not modelled.
- Macros.LcgSeed.Randi models the seed as an unsigned value of the machine width. A seed variable that is signed or narrower than `uintptr_t` is not modelled.
- The kernel's interpreter of interrupt programs is not modelled, so neither is what `CMD_PREDICATE` with value 2 means. The program is modelled as data only; its ACCEPT/DECLINE outcomes are not stated.
- hdactl.c is not part of this model: `hda_ctl_init`, `hda_ctl_fini` and `hda_ctl_interrupt` are opaque calls. Whether `hda_ctl_init` leaves `hda->ctl` set is a scripted answer.
- The framework and kernel calls are modelled as recorded calls with scripted results: `ddf_dev_data_alloc`, `ddf_dev_parent_sess_create`, `hw_res_get_list_parsed`, `pio_enable`, `register_interrupt_handler`, `ddf_fun_create`, `ddf_fun_bind`, `ddf_fun_destroy`, `ddf_fun_add_to_category`, `ddf_fun_offline` and `ddf_fun_unbind`. Their own behaviour is not modelled.
- `ddf_msg` and `printf` logging is left out.
- HdAudio.Hda.Zeroed assumes that `ddf_dev_data_alloc` returns zero-filled memory, so that `hda->ctl` is NULL on the early exits. The allocator is not part of this model.
- `sizeof(hda_regs_t)` is the parameter `regsSize`, assumed larger than the RIRBSTS offset, because the register layout header is not part of this model.
- HdAudio.HdaDevAdd keeps `rwsize` as the exact 64-bit range size. A truncation when it is passed as `size_t` on a 32-bit build is not modelled.
- HdAudio.HdaDevRemove requires the soft state to exist, because the C code dereferences it without a check.
- `hda_fun_online`, `hda_fun_offline`, `hdaudio_interrupt` and `main` are left out. Each makes one framework or controller call and returns its result (`hdaudio_interrupt` returns nothing), or logs and enters the driver framework.
- HdAudio.HdaDevGone requires the soft state to exist, because the C code dereferences it without a check.
- uspace/lib/usbhost/src/iface.c, uspace/drv/rootpc/rootpc.c and kbd/arch/mips32/src/kbd.c are left out. They are framework wrappers and foreign calls with no logic of their own.
- Concurrency is not modelled: an interrupt arriving while the tables are patched, or two devices patching the shared static tables.

## Findings

| source | as written | input that shows it | evidently intended | confidence | as-written member | corrected member |
|---|---|---|---|---|---|---|
| uspace/drv/audio/hdaudio/hdaudio.c:176-180 | an IRQ count other than one jumps to the error exit without setting `rc`, which still holds `pio_enable`'s EOK, so `hda_dev_add` reports success although it registered no handler and created no function | one memory range of 0x4000 bytes, `pio_enable` succeeds, an empty IRQ list (HdAudio.NoIrqAttachesWithoutHandler) | fail with EINVAL, like the memory-range checks before it | high; not executed | HdAudio.IrqCountMismatchReportsSuccess | HdAudio.IntendedAttachResult |
| kernel/generic/include/macros.h:49-55 | the end addresses are computed in `uintptr_t`, so an interval that ends exactly at 2^w gets the end address 0 and overlaps nothing, not even itself, although the doc comment at line 42 promises "true if the intervals overlap" | 32-bit `overlaps(0xFFFF_F000, 0x1000, 0xFFFF_F800, 0x10)`: both intervals contain 0xFFFF_F800 (Macros.OverlapsMissesIntervalEndingAtTop) | the exact test, which Macros.ExactOverlapsIffSharedAddress proves right for all non-empty intervals | medium; not executed | Macros.OverlapsMissesIntervalEndingAtTop | Macros.ExactOverlapsIffSharedAddress |

Macros.Overlaps models `overlaps()` as written, and its contract states that it
agrees with the exact test `ExactOverlaps` whenever neither end address wraps.
HdAudio.PatchedAccessInRange states both tests for a range 0 that does not
wrap, where the two agree.

HdaDevAdd and its phases model the code as written, so they return AttachResult.
IntendedAttachResult is the corrected result. It is proved to report success
exactly for an attached device, and IntendedDiffersOnlyOnIrqCount shows that
this IRQ-count exit is the only place where the two results differ.
