/** The words written over the function entry lead to the replacement. */
module EntryPatching {
  import opened Bits
  import opened Arm
  import opened Relocation
  import opened WordDecoding
  import opened Simulation

  predicate Near(entry: nat, replacement: nat)
  {
    var offset := replacement - entry;
    offset % 4 == 0 && -0x800_0000 <= offset < 0x800_0000
  }

  lemma NearPatch(entry: nat, replacement: nat)
    requires replacement < USIZE && Near(entry, replacement)
    ensures EntryPatch(entry, replacement) == [BEnc(0x05, (replacement - entry) / 4)]
    ensures Decode(EntryPatch(entry, replacement)[0]) == B(replacement - entry)
  {
    hide Decode, And, WAnd, WOr, AsU32, Shl;
    var words := (replacement - entry) / 4;
    BranchWord(words);
    assert BEnc(0x05, words) == WOr(0x1400_0000, WAnd(AsU32(words), 0x03FF_FFFF)) by {
      HeadOfBranch();
    }
  }

  lemma HeadOfBranch()
    ensures Shl(0x05, 0x400_0000) == 0x1400_0000
  {
  }

  lemma NearJump(env: Env, entry: nat, replacement: nat, core: Core)
    requires entry < USIZE && replacement < USIZE && replacement != entry && Near(entry, replacement)
    ensures Run(env, Image(entry, EntryPatch(entry, replacement)), At(0, core), 2) == Left(replacement, core)
  {
    hide Decode, EntryPatch, BEnc;
    NearPatch(entry, replacement);
    var img := Image(entry, EntryPatch(entry, replacement));
    assert Step(env, img, 0, core) == Left(replacement, core);
    RunSucc(env, img, 0, core, 1);
  }

  lemma FarJumps(env: Env, entry: nat, replacement: nat, core: Core)
    requires entry < USIZE && replacement < USIZE
    ensures Run(env, Image(entry, AbsoluteJump(replacement)), At(0, core), 2)
            == Left(replacement, core.With(SCRATCH, replacement))
  {
    hide Decode;
    BrDecodes();
    var patch := AbsoluteJump(replacement);
    var img, c := Image(entry, patch), core.With(SCRATCH, replacement);
    assert Pair(patch[2], patch[3]) == replacement;
    assert Step(env, img, 0, core) == At(1, c);
    assert Step(env, img, 1, c) == Left(replacement, c);
    RunOne(env, img, 1, c);
    RunSucc(env, img, 0, core, 1);
  }

  /** The patch is one word exactly for the replacements a direct branch reaches. Entered at its first word it
      leaves for the replacement; only the far form touches a register, and only the scratch one. */
  lemma PatchReachesReplacement(env: Env, entry: nat, replacement: nat, core: Core)
    requires entry < USIZE && replacement < USIZE && replacement != entry
    ensures var patch := EntryPatch(entry, replacement);
      && |patch| == (if Near(entry, replacement) then 1 else 4)
      && Run(env, Image(entry, patch), At(0, core), 2)
         == Left(replacement, if Near(entry, replacement) then core else core.With(SCRATCH, replacement))
  {
    hide Run, BEnc, WOr;
    if Near(entry, replacement) {
      NearPatch(entry, replacement);
      NearJump(env, entry, replacement, core);
    } else {
      FarJumps(env, entry, replacement, core);
    }
  }
}
